/** scripts/claude-gpt-compat/compat.py: repairs a Responses event stream before
    the pinned adapter converts it. The adapter is modelled as the log of the
    events forwarded to it. */
module Compat {
  import opened Wrappers

  type Id = int

  /** A content part: output text, output text without a string, or anything else. */
  datatype Part = OutputText(text: string) | InvalidText | OtherPart

  datatype Item =
    | MessageItem(id: Option<Id>, completed: bool, content: seq<Part>)
    | ToolItem(id: Option<Id>, callId: Option<Id>, name: Option<Id>, arguments: string)
    | OtherItem(id: Option<Id>)

  datatype Event =
    | Failure
    | ItemAdded(outputIndex: int, item: Item)
    | TextDelta(itemId: Option<Id>, index: int, delta: Option<string>)
    | ArgumentsDelta(itemId: Option<Id>, delta: Option<string>)
    | ItemDone(outputIndex: int, item: Item)
    | Completed(successful: bool, output: seq<Item>)
    | OtherEvent

  // ---------------------------------------------------------------------
  // What was forwarded
  // ---------------------------------------------------------------------

  predicate IsDelta(e: Event, id: Id) {
    e.TextDelta? && e.itemId == Some(id) && e.delta.Some?
  }

  /** All text forwarded for one content part of an item, in order. */
  function Forwarded(log: seq<Event>, id: Id, index: int): string {
    if log == [] then []
    else
      var e := log[|log| - 1];
      Forwarded(log[..|log| - 1], id, index) + (if IsDelta(e, id) && e.index == index then e.delta.value else [])
  }

  predicate ClosesMessage(e: Event, id: Id) {
    e.ItemDone? && e.item.MessageItem? && e.item.id == Some(id)
  }

  function Closings(log: seq<Event>, id: Id): nat {
    if log == [] then 0 else Closings(log[..|log| - 1], id) + (if ClosesMessage(log[|log| - 1], id) then 1 else 0)
  }

  /** The highest content index that was streamed for an item, -1 if none was. */
  function Highest(log: seq<Event>, id: Id): int {
    if log == [] then -1
    else
      var e := log[|log| - 1];
      if IsDelta(e, id) then Max(Highest(log[..|log| - 1], id), e.index) else Highest(log[..|log| - 1], id)
  }

  /** Content indexes of an item never decrease. */
  predicate InOrder(log: seq<Event>) {
    log == [] ||
    (var front, e := log[..|log| - 1], log[|log| - 1];
     InOrder(front) && (e.TextDelta? && e.itemId.Some? && e.delta.Some? ==> Highest(front, e.itemId.value) <= e.index))
  }

  /** Some text was forwarded. */
  predicate HasText(log: seq<Event>) {
    log != [] && (HasText(log[..|log| - 1]) || IsText(log[|log| - 1]))
  }

  predicate IsText(e: Event) {
    e.TextDelta? && e.delta.Some? && e.delta.value != []
  }

  /** In order means: of two deltas of an item, the later one has no lower index. */
  lemma {:induction false} InOrderMeans(log: seq<Event>, i: nat, j: nat, id: Id)
    requires InOrder(log) && i < j < |log| && IsDelta(log[i], id) && IsDelta(log[j], id)
    ensures log[i].index <= log[j].index
  {
    var front := log[..|log| - 1];
    if j == |log| - 1 {
      HighestIsHighest(front, i, id);
    } else {
      InOrderMeans(front, i, j, id);
    }
  }

  lemma {:induction false} HighestIsHighest(log: seq<Event>, i: nat, id: Id)
    requires i < |log| && IsDelta(log[i], id)
    ensures log[i].index <= Highest(log, id)
  {
    if i < |log| - 1 { HighestIsHighest(log[..|log| - 1], i, id); }
  }

  /** What one more forwarded event changes. */
  lemma Next(log: seq<Event>, e: Event)
    ensures forall id, index ::
              Forwarded(log + [e], id, index) == Forwarded(log, id, index)
                  + (if IsDelta(e, id) && e.index == index then e.delta.value else [])
    ensures forall id :: Closings(log + [e], id) == Closings(log, id) + (if ClosesMessage(e, id) then 1 else 0)
    ensures forall id :: Highest(log + [e], id) == if IsDelta(e, id) then Max(Highest(log, id), e.index)
            else Highest(log, id)
    ensures InOrder(log + [e]) <==>
            InOrder(log) && (e.TextDelta? && e.itemId.Some? && e.delta.Some? ==>
                Highest(log, e.itemId.value) <= e.index)
    ensures HasText(log + [e]) <==> HasText(log) || IsText(e)
  {
    assert (log + [e])[..|log|] == log;
  }

  lemma {:induction false} ForwardedIsText(log: seq<Event>, id: Id, index: int)
    ensures Forwarded(log, id, index) != [] ==> HasText(log)
  {
    if log != [] { ForwardedIsText(log[..|log| - 1], id, index); }
  }

  type Deltas = map<(Id, int), string>

  function TextAt(texts: seq<string>, index: int): string {
    if 0 <= index < |texts| then texts[index] else []
  }

  function Seen(deltas: Deltas, id: Id, index: int): string {
    if (id, index) in deltas then deltas[(id, index)] else []
  }

  /** The text of every item: the final text once it is done, the streamed text until then. */
  ghost predicate TextsMatch(log: seq<Event>, done: map<Id, seq<string>>, deltas: Deltas) {
    forall id, index :: Forwarded(log, id, index) == if id in done then TextAt(done[id], index)
        else Seen(deltas, id, index)
  }

  ghost predicate ClosedOnce(log: seq<Event>, done: map<Id, seq<string>>) {
    forall id :: Closings(log, id) == if id in done then 1 else 0
  }

  ghost predicate DeltasKnown(log: seq<Event>, done: map<Id, seq<string>>, deltas: Deltas) {
    && (forall k | k in deltas :: k.1 >= 0)
    && (forall id | id !in done :: Highest(log, id) == -1 || (id, Highest(log, id)) in deltas)
  }

  /** The forwarded log against the wrapper's tables. Each message is closed once, when it is done. */
  ghost predicate Faithful(log: seq<Event>, done: map<Id, seq<string>>, deltas: Deltas) {
    InOrder(log) && TextsMatch(log, done, deltas) && ClosedOnce(log, done) && DeltasKnown(log, done, deltas)
  }

  /** Whether the item has a delta at a higher content index. */
  predicate Higher(deltas: Deltas, id: Id, index: int) {
    exists k | k in deltas :: k.0 == id && k.1 > index
  }

  lemma NotHigher(log: seq<Event>, done: map<Id, seq<string>>, deltas: Deltas, id: Id, index: int)
    requires DeltasKnown(log, done, deltas) && id !in done && !Higher(deltas, id, index) && index >= 0
    ensures Highest(log, id) <= index
  {
    var k := (id, Highest(log, id));
    assert k in deltas ==> !(k.0 == id && k.1 > index);
  }

  // ---------------------------------------------------------------------
  // The wrapper
  // ---------------------------------------------------------------------

  function TextsOf(content: seq<Part>): seq<string> {
    if content == [] then []
    else
      TextsOf(content[..|content| - 1])
      + [if content[|content| - 1].OutputText? then content[|content| - 1].text else []]
  }

  predicate AllText(content: seq<Part>) {
    forall i | 0 <= i < |content| :: content[i].OutputText?
  }

  // ---------------------------------------------------------------------
  // What the wrapper accepts, and what it forwards
  // ---------------------------------------------------------------------

  datatype State = State(
    added: set<Option<Id>>,
    done: map<Id, seq<string>>,
    deltas: Deltas,
    tools: map<Option<Id>, (Option<Id>, Option<Id>)>,
    toolArguments: map<Option<Id>, string>,
    terminal: bool,
    visible: bool,
    log: seq<Event>)

  const INITIAL := State({}, map[], map[], map[], map[], false, false, [])

  /** Streamed text agrees with the final text; missing text can still be put in order. */
  predicate Fits(deltas: Deltas, id: Id, texts: seq<string>, k: nat)
    requires k < |texts|
  {
    if (id, k) in deltas then deltas[(id, k)] == texts[k] else texts[k] == [] || !Higher(deltas, id, k)
  }

  /** A final message that can be forwarded faithfully, or was already. */
  predicate Finishable(done: map<Id, seq<string>>, deltas: Deltas, item: Item) {
    && item.MessageItem? && item.id.Some? && item.completed && AllText(item.content)
    && var id, texts := item.id.value, TextsOf(item.content);
    if id in done then done[id] == texts
    else
      && (forall k | 0 <= k < |texts| :: Fits(deltas, id, texts, k))
      && !exists k | k in deltas :: k.0 == id && k.1 >= |texts|
  }

  predicate AnyText(texts: seq<string>) {
    exists k | 0 <= k < |texts| :: texts[k] != []
  }

  predicate IsOpen(log: seq<Event>, id: Option<Id>) {
    exists i | 0 <= i < |log| :: log[i].ItemAdded? && log[i].item.id == id
  }

  /** The opening event of a message that the adapter has not seen yet. */
  function Opening(added: set<Option<Id>>, log: seq<Event>, item: Item, outputIndex: int): seq<Event> {
    if item.id in added || IsOpen(log, item.id) then [] else [ItemAdded(outputIndex, item)]
  }

  /** The missing deltas of the first `n` content parts. */
  function Repairs(deltas: Deltas, id: Id, texts: seq<string>, n: nat): seq<Event>
    requires n <= |texts|
  {
    if n == 0 then []
    else
      Repairs(deltas, id, texts, n - 1)
      + (if (id, n - 1) !in deltas && texts[n - 1] != [] then [TextDelta(Some(id), n - 1, Some(texts[n - 1]))] else [])
  }

  /** A final message repaired and closed. */
  function Closed(s: State, item: Item, outputIndex: int): State {
    if !item.MessageItem? || item.id.None? || item.id.value in s.done then s
    else
      var id, texts := item.id.value, TextsOf(item.content);
      s.(added := s.added + {item.id}, done := s.done[id := texts], visible := s.visible || AnyText(texts),
         log := s.log + Opening(s.added, s.log, item, outputIndex) + Repairs(s.deltas, id, texts, |texts|)
             + [ItemDone(outputIndex, item)])
  }

  /** `_validate_tool`. */
  predicate ToolMatches(s: State, item: Item)
    requires item.ToolItem?
  {
    && item.id in s.tools && s.tools[item.id] == (item.callId, item.name) && item.callId.Some? && item.name.Some?
    && (if item.id in s.toolArguments then s.toolArguments[item.id] else []) == item.arguments
  }

  predicate CanClose(s: State, item: Item) {
    && (item.MessageItem? ==> Finishable(s.done, s.deltas, item))
    && (item.ToolItem? ==> ToolMatches(s, item))
  }

  /** One item of the final output. */
  function Settled(s: State, item: Item, outputIndex: int): State {
    if item.ToolItem? then s.(visible := true) else Closed(s, item, outputIndex)
  }

  function SettledAll(s: State, output: seq<Item>): State {
    if output == [] then s else Settled(SettledAll(s, output[..|output| - 1]), output[|output| - 1], |output| - 1)
  }

  predicate CanSettle(s: State, output: seq<Item>) {
    output == [] ||
    (var front, last := output[..|output| - 1], output[|output| - 1];
     CanSettle(s, front) && last.id !in IdsIn(front) && CanClose(SettledAll(s, front), last))
  }

  /** Ids the wrapper has seen anything of. */
  function Observed(s: State): set<Option<Id>> {
    s.added + (set id | id in s.done :: Some(id)) + (set k | k in s.deltas :: Some(k.0))
  }

  predicate CanConclude(s: State, output: seq<Item>) {
    && CanSettle(s, output)
    && SettledAll(s, output).visible && Observed(SettledAll(s, output)) <= IdsIn(output)
  }

  predicate CanStream(s: State, id: Option<Id>, index: int, delta: Option<string>) {
    id.Some? && index >= 0 && delta.Some? && id.value !in s.done && !Higher(s.deltas, id.value, index)
  }

  /** `_process_event` does not raise. */
  predicate CanProcess(s: State, e: Event) {
    && !s.terminal
    && match e
       case Failure => false
       case ItemAdded(_, item) => item.id !in s.added
       case TextDelta(id, index, delta) => CanStream(s, id, index, delta)
       case ArgumentsDelta(id, delta) => id in s.tools && delta.Some?
       case ItemDone(_, item) => CanClose(s, item)
       case Completed(successful, output) => successful && CanConclude(s, output)
       case OtherEvent => true
  }

  /** The wrapper after an event it accepts. */
  function Processed(s: State, e: Event): State {
    match e
    case ItemAdded(_, item) =>
      s.(added := s.added + {item.id}, log := s.log + [e],
         tools := if item.ToolItem? then s.tools[item.id := (item.callId, item.name)] else s.tools)
    case TextDelta(Some(id), index, Some(delta)) =>
      s.(deltas := s.deltas[(id, index) := Seen(s.deltas, id, index) + delta], visible := s.visible || delta != [],
         log := s.log + [e])
    case ArgumentsDelta(id, Some(delta)) =>
      s.(toolArguments := s.toolArguments[id := (if id in s.toolArguments then s.toolArguments[id] else []) + delta],
         log := s.log + [e])
    case ItemDone(outputIndex, item) => if item.MessageItem? then Closed(s, item, outputIndex)
        else s.(log := s.log + [e])
    case Completed(_, output) => SettledAll(s, output).(terminal := true, log := SettledAll(s, output).log + [e])
    case _ => s.(log := s.log + [e])
  }

  /** A stream from its start; `None` once an event is refused. */
  function Ran(events: seq<Event>): Option<State> {
    if events == [] then Some(INITIAL)
    else
      match Ran(events[..|events| - 1])
      case None => None
      case Some(s) => if CanProcess(s, events[|events| - 1]) then Some(Processed(s, events[|events| - 1])) else None
  }

  class FinalItemStreamWrapper {
    var added: set<Option<Id>>
    var done: map<Id, seq<string>>
    var deltas: Deltas
    var tools: map<Option<Id>, (Option<Id>, Option<Id>)>
    var toolArguments: map<Option<Id>, string>
    var terminal: bool
    var visible: bool
    /** What the base class was given. */
    var log: seq<Event>

    constructor ()
      ensures Valid() && View() == INITIAL
    {
      added, done, deltas, tools, toolArguments, terminal, visible, log := {}, map[], map[], map[], map[], false, false,
          [];
    }

    function View(): State
      reads this
    {
      State(added, done, deltas, tools, toolArguments, terminal, visible, log)
    }

    ghost predicate Valid()
      reads this
    {
      Faithful(log, done, deltas) && (visible && !terminal ==> HasText(log))
    }

    method Forward(e: Event)
      modifies `log
      ensures log == old(log) + [e]
    {
      log := log + [e];
    }

    /** `_finish_text`: the final text of a message. Content without any delta is
        replayed, streamed content must agree. `first` says whether the item was not
        finished before. After a failure the stream is over. */
    method FinishText(item: Item, outputIndex: int) returns (ok: bool, first: bool)
      requires item.MessageItem? && Valid() && !terminal
      modifies `added, `done, `log, `visible
      ensures ok <==> Finishable(old(done), deltas, item)
      ensures ok ==>
                var id, texts := item.id.value, TextsOf(item.content);
                && first == (id !in old(done))
                && (if first then
                      && Finished(id, log, old(done), done, deltas) && (visible ==> HasText(log))
                      && added == old(added) + {item.id} && done == old(done)[id := texts]
                         && visible == (old(visible) || AnyText(texts))
                      && log == old(log) + Opening(old(added), old(log), item, outputIndex) + Repairs(deltas, id, texts,
                          |texts|)
                    else View() == old(View()))
    {
      if item.id.None? || !item.completed { return false, false; }
      if !AllText(item.content) { return false, false; }
      var id, texts := item.id.value, TextsOf(item.content);
      if id in done { return done[id] == texts, false; }
      hide Faithful, Replayed, Finished, TextsOf, HasText, AnyText, Fits, Repairs, AllText;
      if item.id !in added && !exists i | 0 <= i < |log| :: log[i].ItemAdded? && log[i].item.id == item.id {
        NeutralStep(log, ItemAdded(outputIndex, item), done, deltas);
        Next(log, ItemAdded(outputIndex, item));
        Forward(ItemAdded(outputIndex, item));
      }
      added := added + {item.id};
      ReplayStarts(id, texts, log, done, deltas);
      var fits := Replay(id, texts);
      if !fits || exists k | k in deltas :: k.0 == id && k.1 >= |texts| { return false, false; }
      ReplayCompletes(id, texts, log, done, deltas);
      done := done[id := texts];
      return true, true;
    }

    /** The loop of `_finish_text`: forwards the text that was not streamed. */
    method Replay(id: Id, texts: seq<string>) returns (fits: bool)
      requires Replayed(id, texts, 0, log, done, deltas) && (visible ==> HasText(log))
      modifies `log, `visible
      ensures fits <==> forall k | 0 <= k < |texts| :: Fits(deltas, id, texts, k)
      ensures fits ==>
                && Replayed(id, texts, |texts|, log, done, deltas) && (visible ==> HasText(log))
                && visible == (old(visible) || AnyText(texts)) && log == old(log) + Repairs(deltas, id, texts, |texts|)
    {
      hide Replayed, HasText, AnyText, Higher, TextSoFar, DeltasBut, Repairs;
      NoTextYet(texts);
      NoRepairYet(deltas, id, texts);
      for index := 0 to |texts|
        invariant visible ==> HasText(log)
        invariant visible == (old(visible) || AnyText(texts[..index]))
        invariant log == old(log) + Repairs(deltas, id, texts, index)
        invariant forall k | 0 <= k < index :: Fits(deltas, id, texts, k)
        invariant Replayed(id, texts, index, log, done, deltas)
      {
        var text := texts[index];
        OneMoreText(texts, index);
        OneMoreRepair(old(log), deltas, id, texts, index);
        if (id, index) in deltas {
          if deltas[(id, index)] != text { assert !Fits(deltas, id, texts, index); return false; }
          StreamedText(id, texts, index, log, done, deltas);
          ReplaySkips(id, texts, index, log, done, deltas);
        } else if text != [] {
          if Higher(deltas, id, index) { assert !Fits(deltas, id, texts, index); return false; }
          ReplayAdds(id, texts, index, log, done, deltas);
          Next(log, TextDelta(Some(id), index, Some(text)));
          Forward(TextDelta(Some(id), index, Some(text)));
        } else {
          ReplaySkips(id, texts, index, log, done, deltas);
        }
        visible := visible || text != [];
      }
      assert texts[..|texts|] == texts;
      return true;
    }

    /** `_process_event`. After a failure the stream is over. */
    method ProcessEvent(e: Event) returns (ok: bool)
      requires Valid()
      modifies this
      ensures ok <==> CanProcess(old(View()), e)
      ensures ok ==> View() == Processed(old(View()), e) && Valid()
      ensures ok && e.Completed? ==> Complete(e.output, log)
    {
      hide Faithful, TextsOf, HasText, Complete, Finishable, SettledAll, CanSettle, Observed;
      if terminal { return false; }
      match e {
        case Failure => return false;
        case ItemAdded(_, item) => ok := Add(item);
        case TextDelta(id, index, delta) => ok := Stream(id, index, delta);
        case ArgumentsDelta(id, delta) =>
          ok := id in tools && delta.Some?;
          if ok { toolArguments := toolArguments[id := (if id in toolArguments then toolArguments[id] else [])
              + delta.value]; }
        case ItemDone(outputIndex, item) =>
          if item.ToolItem? && !ToolMatches(View(), item) { return false; }
          if item.MessageItem? {
            ok := Close(item, outputIndex);
            return;
          }
          ok := true;
        case Completed(successful, output) =>
          if !successful { return false; }
          ok := Conclude(output);
        case OtherEvent => ok := true;
      }
      if !ok || e.TextDelta? { return; }
      NeutralStep(log, e, done, deltas);
      Next(log, e);
      if e.Completed? { CompleteStays(e.output, log, e); }
      Forward(e);
    }

    method Add(item: Item) returns (ok: bool)
      requires Valid()
      modifies `added, `tools
      ensures Valid()
      ensures ok <==> item.id !in old(added)
      ensures ok ==> added == old(added) + {item.id}
      ensures tools == if item.ToolItem? then old(tools)[item.id := (item.callId, item.name)] else old(tools)
    {
      if item.ToolItem? { tools := tools[item.id := (item.callId, item.name)]; }
      if item.id in added { return false; }
      added := added + {item.id};
      return true;
    }

    /** A streamed text delta: recorded and forwarded. */
    method Stream(id: Option<Id>, index: int, delta: Option<string>) returns (ok: bool)
      requires Valid() && !terminal
      modifies `deltas, `visible, `log
      ensures ok <==> CanStream(old(View()), id, index, delta)
      ensures ok ==> Valid() && View() == Processed(old(View()), TextDelta(id, index, delta))
    {
      hide Faithful, HasText;
      if id.None? || index < 0 || delta.None? { return false; }
      if id.value in done { return false; }
      if Higher(deltas, id.value, index) { return false; }
      StreamKeepsFaithful(log, done, deltas, id.value, index, delta.value);
      Next(log, TextDelta(id, index, delta));
      deltas := deltas[(id.value, index) := Seen(deltas, id.value, index) + delta.value];
      visible := visible || delta.value != [];
      Forward(TextDelta(id, index, delta));
      return true;
    }

    /** A message is finished and its closing event forwarded, unless both happened before. */
    method Close(item: Item, outputIndex: int) returns (ok: bool)
      requires Valid() && item.MessageItem? && !terminal
      modifies `added, `done, `log, `visible
      ensures ok <==> Finishable(old(done), deltas, item)
      ensures ok ==> Valid() && View() == Closed(old(View()), item, outputIndex)
      ensures ok ==> item.id.Some? && item.id.value in done && done[item.id.value] == TextsOf(item.content)
      ensures ok ==> forall id | id in old(done) :: id in done && done[id] == old(done)[id]
    {
      hide Faithful, Finished, TextsOf, HasText, Opening, Repairs, AnyText, Fits;
      ghost var done0 := done;
      var first: bool;
      ok, first := FinishText(item, outputIndex);
      if ok && first {
        FinishedThenClosed(item.id.value, log, done0, done, deltas, ItemDone(outputIndex, item));
        Next(log, ItemDone(outputIndex, item));
        Forward(ItemDone(outputIndex, item));
      }
    }

    /** The `response.completed` branch: every final message is finished, every final
        tool call checked, and nothing that was seen is missing from the output. */
    method Conclude(output: seq<Item>) returns (ok: bool)
      requires Valid() && !terminal
      modifies `added, `done, `log, `visible, `terminal
      ensures ok <==> CanConclude(old(View()), output)
      ensures ok ==> Valid() && View() == SettledAll(old(View()), output).(terminal := true) && Complete(output, log)
    {
      ghost var s := View();
      var tool := false;
      SettleStart(s, output);
      hide Faithful, TextsOf, HasText, IdsIn, Complete, SettledAll, CanSettle, Closed, Finishable;
      var finals: set<Option<Id>> := {};
      for i := 0 to |output|
        invariant Valid() && !terminal && CanSettle(s, output[..i])
        invariant View().(visible := visible || tool) == SettledAll(s, output[..i])
        invariant AllFinished(output[..i], done) && finals == IdsIn(output[..i])
        invariant tool ==> HasTool(output)
      {
        var item := output[i];
        SettleStep(s, output, i);
        VisibleAddsUp(View(), tool, item, i);
        if item.id in finals { return false; }
        ghost var done0 := done;
        OneMoreItem(output, i);
        finals := finals + {item.id};
        if item.MessageItem? {
          var closed := Close(item, i);
          if !closed { return false; }
          FinishedStay(output[..i], done0, done);
        } else if item.ToolItem? {
          if !ToolMatches(View(), item) { return false; }
          tool := true;
        }
      }
      assert output[..|output|] == output;
      visible := visible || tool;
      if !visible || !(Observed(View()) <= finals) { return false; }
      CompleteNow(output, log, done, deltas);
      terminal := true;
      return true;
    }
  }

  lemma NoRepairYet(deltas: Deltas, id: Id, texts: seq<string>)
    ensures Repairs(deltas, id, texts, 0) == []
  {
  }

  lemma OneMoreRepair(log: seq<Event>, deltas: Deltas, id: Id, texts: seq<string>, i: nat)
    requires i < |texts|
    ensures log + Repairs(deltas, id, texts, i + 1) ==
            if (id, i) !in deltas
                && texts[i] != [] then log + Repairs(deltas, id, texts, i) + [TextDelta(Some(id), i, Some(texts[i]))]
            else log + Repairs(deltas, id, texts, i)
  {
  }

  lemma NoTextYet(texts: seq<string>)
    ensures !AnyText(texts[..0])
  {
  }

  lemma OneMoreText(texts: seq<string>, i: nat)
    requires i < |texts|
    ensures AnyText(texts[..i + 1]) <==> AnyText(texts[..i]) || texts[i] != []
  {
    assert forall k | 0 <= k < i :: texts[..i + 1][k] == texts[..i][k];
    assert texts[..i + 1][i] == texts[i];
  }

  lemma VisibleAddsUp(s: State, tool: bool, item: Item, i: int)
    ensures Closed(s.(visible := s.visible || tool), item, i)
         == Closed(s, item, i).(visible := Closed(s, item, i).visible || tool)
    ensures CanClose(s.(visible := s.visible || tool), item) <==> CanClose(s, item)
    ensures !item.MessageItem? ==> Closed(s, item, i) == s
  {
  }

  lemma SettleStart(s: State, output: seq<Item>)
    ensures CanSettle(s, output[..0]) && SettledAll(s, output[..0]) == s
    ensures IdsIn(output[..0]) == {} && AllFinished(output[..0], s.done)
  {
  }

  /** What one more item of the output takes; without it the whole output cannot be settled. */
  lemma SettleStep(s: State, output: seq<Item>, i: nat)
    requires i < |output|
    ensures SettledAll(s, output[..i + 1]) == Settled(SettledAll(s, output[..i]), output[i], i)
    ensures CanSettle(s, output[..i + 1]) <==>
            CanSettle(s, output[..i]) && output[i].id !in IdsIn(output[..i])
                && CanClose(SettledAll(s, output[..i]), output[i])
    ensures CanSettle(s, output) ==> CanSettle(s, output[..i + 1])
  {
    assert output[..i + 1][..i] == output[..i];
    if CanSettle(s, output) { CanSettlePrefix(s, output, i + 1); }
  }

  lemma {:induction false} CanSettlePrefix(s: State, output: seq<Item>, n: nat)
    requires n <= |output| && CanSettle(s, output)
    ensures CanSettle(s, output[..n])
    decreases |output|
  {
    if n == |output| {
      assert output[..n] == output;
    } else {
      CanSettlePrefix(s, output[..|output| - 1], n);
      assert output[..|output| - 1][..n] == output[..n];
    }
  }

  /** The loop of `_finish_text`: texts up to `n` are complete, the rest is as streamed. */
  ghost predicate Replayed(id: Id, texts: seq<string>, n: nat, log: seq<Event>, done: map<Id, seq<string>>,
                           deltas: Deltas) {
    && id !in done && n <= |texts|
    && InOrder(log) && ClosedOnce(log, done) && DeltasBut(id, n, log, done, deltas)
    && forall x, index :: Forwarded(log, x, index) == TextSoFar(id, texts, n, done, deltas, x, index)
  }

  function TextSoFar(id: Id, texts: seq<string>, n: nat, done: map<Id, seq<string>>, deltas: Deltas, x: Id,
                     index: int): string
    requires n <= |texts|
  {
    if x in done then TextAt(done[x], index)
    else if x == id && 0 <= index < n then texts[index]
    else Seen(deltas, x, index)
  }

  ghost predicate DeltasBut(id: Id, n: nat, log: seq<Event>, done: map<Id, seq<string>>, deltas: Deltas) {
    && (forall k | k in deltas :: k.1 >= 0)
    && (forall x | x !in done && x != id :: Highest(log, x) == -1 || (x, Highest(log, x)) in deltas)
    && (Highest(log, id) < n || (id, Highest(log, id)) in deltas)
  }

  /** An item is finished: its text is final, everything else as before; its closing event is still to be forwarded. */
  ghost predicate Finished(id: Id, log: seq<Event>, done0: map<Id, seq<string>>, done: map<Id, seq<string>>,
                           deltas: Deltas) {
    && id !in done0 && done.Keys == done0.Keys + {id} && (forall x | x in done0 :: done[x] == done0[x])
    && InOrder(log) && TextsMatch(log, done, deltas) && ClosedOnce(log, done0) && DeltasKnown(log, done, deltas)
  }

  lemma NeutralStep(log: seq<Event>, e: Event, done: map<Id, seq<string>>, deltas: Deltas)
    requires Faithful(log, done, deltas) && !e.TextDelta? && (e.ItemDone? ==> !e.item.MessageItem?)
    ensures Faithful(log + [e], done, deltas)
  {
    Next(log, e);
    hide Forwarded, Closings, Highest, InOrder;
  }

  lemma ReplayStarts(id: Id, texts: seq<string>, log: seq<Event>, done: map<Id, seq<string>>, deltas: Deltas)
    requires Faithful(log, done, deltas) && id !in done
    ensures Replayed(id, texts, 0, log, done, deltas)
  {
    hide Forwarded, Closings, Highest, InOrder;
  }

  lemma ReplaySkips(id: Id, texts: seq<string>, n: nat, log: seq<Event>, done: map<Id, seq<string>>, deltas: Deltas)
    requires Replayed(id, texts, n, log, done, deltas) && n < |texts|
    requires if (id, n) in deltas then deltas[(id, n)] == texts[n] else texts[n] == []
    ensures Replayed(id, texts, n + 1, log, done, deltas)
  {
    hide Forwarded, Closings, Highest, InOrder;
  }

  lemma StreamedText(id: Id, texts: seq<string>, n: nat, log: seq<Event>, done: map<Id, seq<string>>, deltas: Deltas)
    requires Replayed(id, texts, n, log, done, deltas) && (id, n) in deltas
    ensures deltas[(id, n)] != [] ==> HasText(log)
  {
    ForwardedIsText(log, id, n);
  }

  lemma ReplayAdds(id: Id, texts: seq<string>, n: nat, log: seq<Event>, done: map<Id, seq<string>>, deltas: Deltas)
    requires Replayed(id, texts, n, log, done, deltas) && n < |texts| && (id, n) !in deltas && !Higher(deltas, id, n)
    ensures Replayed(id, texts, n + 1, log + [TextDelta(Some(id), n, Some(texts[n]))], done, deltas)
  {
    var e := TextDelta(Some(id), n, Some(texts[n]));
    Next(log, e);
    ReplayHighest(id, n, log, done, deltas);
    hide Forwarded, Closings, Highest, InOrder, Higher, TextSoFar;
    forall x, index ensures Forwarded(log + [e], x, index) == TextSoFar(id, texts, n + 1, done, deltas, x, index) {
      TextGains(id, texts, n, done, deltas, x, index);
    }
  }

  lemma TextGains(id: Id, texts: seq<string>, n: nat, done: map<Id, seq<string>>, deltas: Deltas, x: Id, index: int)
    requires n < |texts| && (id, n) !in deltas && id !in done
    ensures TextSoFar(id, texts, n + 1, done, deltas, x, index)
            == TextSoFar(id, texts, n, done, deltas, x, index) + (if x == id && index == n then texts[n] else [])
  {
  }

  lemma ReplayHighest(id: Id, n: nat, log: seq<Event>, done: map<Id, seq<string>>, deltas: Deltas)
    requires DeltasBut(id, n, log, done, deltas) && !Higher(deltas, id, n)
    ensures Highest(log, id) <= n
  {
    var k := (id, Highest(log, id));
    assert k in deltas ==> !(k.0 == id && k.1 > n);
  }

  lemma ReplayCompletes(id: Id, texts: seq<string>, log: seq<Event>, done: map<Id, seq<string>>, deltas: Deltas)
    requires Replayed(id, texts, |texts|, log, done, deltas)
    requires forall k | k in deltas :: k.0 == id ==> k.1 < |texts|
    ensures Finished(id, log, done, done[id := texts], deltas)
  {
    hide Forwarded, Closings, Highest, InOrder;
    forall index | index < 0 || index >= |texts| ensures (id, index) !in deltas {
      var k := (id, index);
      assert k in deltas ==> k.0 == id && k.1 >= 0;
    }
  }

  lemma FinishedThenClosed(id: Id, log: seq<Event>, done0: map<Id, seq<string>>, done: map<Id, seq<string>>,
                           deltas: Deltas, e: Event)
    requires Finished(id, log, done0, done, deltas) && ClosesMessage(e, id)
    ensures Faithful(log + [e], done, deltas)
  {
    Next(log, e);
    hide Forwarded, Closings, Highest, InOrder;
  }

  lemma StreamKeepsFaithful(log: seq<Event>, done: map<Id, seq<string>>, deltas: Deltas, id: Id, index: int,
                            text: string)
    requires Faithful(log, done, deltas) && id !in done && index >= 0 && !Higher(deltas, id, index)
    ensures Faithful(log + [TextDelta(Some(id), index, Some(text))], done,
                     deltas[(id, index) := Seen(deltas, id, index) + text])
  {
    var e, more := TextDelta(Some(id), index, Some(text)), Seen(deltas, id, index) + text;
    NotHigher(log, done, deltas, id, index);
    Next(log, e);
    hide Forwarded, Closings, Highest, InOrder, Seen, TextAt, Higher;
    StreamKeepsTexts(log, done, deltas, id, index, text);
    StreamKeepsDeltas(log, done, deltas, id, index, e, more);
    hide TextsMatch, DeltasKnown;
  }

  lemma StreamKeepsTexts(log: seq<Event>, done: map<Id, seq<string>>, deltas: Deltas, id: Id, index: int, text: string)
    requires TextsMatch(log, done, deltas) && id !in done
    ensures TextsMatch(log + [TextDelta(Some(id), index, Some(text))], done,
                       deltas[(id, index) := Seen(deltas, id, index) + text])
  {
    var e, deltas' := TextDelta(Some(id), index, Some(text)), deltas[(id, index) := Seen(deltas, id, index) + text];
    Next(log, e);
    hide Forwarded, Closings, Highest, InOrder;
    forall x, k ensures Forwarded(log + [e], x, k) == if x in done then TextAt(done[x], k) else Seen(deltas', x, k) {
      assert Forwarded(log, x, k) == if x in done then TextAt(done[x], k) else Seen(deltas, x, k);
      SeenElsewhere(deltas, id, index, Seen(deltas, id, index) + text, x, k);
    }
    hide TextsMatch, Seen;
  }

  lemma SeenElsewhere(deltas: Deltas, id: Id, index: int, text: string, x: Id, k: int)
    ensures Seen(deltas[(id, index) := text], x, k) == if x == id && k == index then text else Seen(deltas, x, k)
  {
  }

  lemma StreamKeepsDeltas(log: seq<Event>, done: map<Id, seq<string>>, deltas: Deltas, id: Id, index: int, e: Event,
                          text: string)
    requires DeltasKnown(log, done, deltas) && IsDelta(e, id) && e.index == index >= 0 && Highest(log, id) <= index
    ensures DeltasKnown(log + [e], done, deltas[(id, index) := text])
  {
    Next(log, e);
    hide Forwarded, Closings, Highest, InOrder;
  }

  function IdsIn(output: seq<Item>): set<Option<Id>> {
    set item | item in output :: item.id
  }

  predicate HasTool(output: seq<Item>) {
    exists i | 0 <= i < |output| :: output[i].ToolItem?
  }

  /** What a successful stream has forwarded: for each final message exactly its final
      text, part by part and in order, and one closing event; no text for items that
      are not in the output; and something visible. */
  ghost predicate Complete(output: seq<Item>, log: seq<Event>) {
    && InOrder(log)
    && (forall item | item in output && item.MessageItem? ::
          && item.id.Some? && Closings(log, item.id.value) == 1
          && forall index :: Forwarded(log, item.id.value, index) == TextAt(TextsOf(item.content), index))
    && (forall id :: Highest(log, id) >= 0 ==> Some(id) in IdsIn(output))
    && (HasText(log) || HasTool(output))
  }

  /** The final messages so far were all finished with their final text. */
  predicate AllFinished(items: seq<Item>, done: map<Id, seq<string>>) {
    forall item | item in items && item.MessageItem? :: item.id.Some? && item.id.value in done
        && done[item.id.value] == TextsOf(item.content)
  }

  lemma OneMoreItem(output: seq<Item>, i: nat)
    requires i < |output|
    ensures IdsIn(output[..i + 1]) == IdsIn(output[..i]) + {output[i].id}
    ensures forall done ::
              AllFinished(output[..i + 1], done)
              <==> AllFinished(output[..i], done) && AllFinished([output[i]], done)
  {
    assert output[..i + 1] == output[..i] + [output[i]];
  }

  lemma FinishedStay(items: seq<Item>, done: map<Id, seq<string>>, done': map<Id, seq<string>>)
    requires AllFinished(items, done) && forall id | id in done :: id in done' && done'[id] == done[id]
    ensures AllFinished(items, done')
  {
    forall item | item in items && item.MessageItem?
      ensures item.id.Some? && item.id.value in done' && done'[item.id.value] == TextsOf(item.content)
    {
      var id := item.id.value;
      assert id in done && done[id] == TextsOf(item.content);
      assert id in done' && done'[id] == done[id];
    }
  }

  lemma CompleteNow(output: seq<Item>, log: seq<Event>, done: map<Id, seq<string>>, deltas: Deltas)
    requires Faithful(log, done, deltas) && AllFinished(output, done)
    requires forall id | id in done :: Some(id) in IdsIn(output)
    requires forall k | k in deltas :: Some(k.0) in IdsIn(output)
    requires HasText(log) || HasTool(output)
    ensures Complete(output, log)
  {
    hide Forwarded, Closings, Highest, InOrder, IdsIn, TextsOf, HasTool;
    forall id | Highest(log, id) >= 0 ensures Some(id) in IdsIn(output) {
      var k := (id, Highest(log, id));
      assert id !in done ==> k in deltas && k.0 == id;
    }
  }

  lemma CompleteStays(output: seq<Item>, log: seq<Event>, e: Event)
    requires Complete(output, log) && !e.TextDelta? && !e.ItemDone?
    ensures Complete(output, log + [e])
  {
    Next(log, e);
    hide Forwarded, Closings, Highest, InOrder, IdsIn, TextsOf;
  }

  // ---------------------------------------------------------------------
  // Whole streams
  // ---------------------------------------------------------------------

  lemma {:induction false} RefusedStays(events: seq<Event>, n: nat)
    requires n <= |events| && Ran(events[..n]).None?
    ensures Ran(events).None?
    decreases |events|
  {
    if n == |events| {
      assert events[..n] == events;
    } else {
      assert events[..|events| - 1][..n] == events[..n];
      RefusedStays(events[..|events| - 1], n);
    }
  }

  /** A whole stream: it succeeds only with `response.completed` as its last event, and
      then the adapter was given exactly the final text. */
  method RunStream(events: seq<Event>) returns (accepted: bool, log: seq<Event>)
    ensures accepted <==> Ran(events).Some? && Ran(events).value.terminal
    ensures accepted ==> log == Ran(events).value.log
    ensures accepted ==> events != [] && events[|events| - 1].Completed? && Complete(events[|events| - 1].output, log)
    ensures accepted ==> forall i | 0 <= i < |events| - 1 :: !events[i].Completed?
  {
    var wrapper := new FinalItemStreamWrapper();
    hide CanProcess, Processed, Complete, Faithful, HasText;
    for i := 0 to |events|
      invariant fresh(wrapper) && wrapper.Valid() && Ran(events[..i]) == Some(wrapper.View())
      invariant wrapper.terminal ==> i > 0 && events[i - 1].Completed? && Complete(events[i - 1].output, wrapper.log)
      invariant forall j | 0 <= j < i - 1 :: !events[j].Completed?
      invariant !wrapper.terminal && i > 0 ==> !events[i - 1].Completed?
    {
      assert events[..i + 1][..i] == events[..i];
      ghost var s := wrapper.View();
      ProcessedEnds(s, events[i]);
      var ok := wrapper.ProcessEvent(events[i]);
      if !ok {
        RefusedStays(events, i + 1);
        return false, wrapper.log;
      }
    }
    assert events[..|events|] == events;
    return wrapper.terminal, wrapper.log;
  }

  lemma ProcessedEnds(s: State, e: Event)
    ensures CanProcess(s, e) ==> !s.terminal && (Processed(s, e).terminal <==> e.Completed?)
  {
    hide SettledAll, CanSettle, Finishable;
  }

  /** A final output that needs nothing from the stream before it. */
  predicate SelfContained(output: seq<Item>) {
    && (forall i, j | 0 <= i < j < |output| :: output[i].id != output[j].id)
    && (forall i | 0 <= i < |output| :: Standalone(output[i]))
  }

  predicate Standalone(item: Item) {
    item.OtherItem? || (item.MessageItem? && item.id.Some? && item.completed && AllText(item.content))
  }

  predicate SomeText(output: seq<Item>) {
    exists i | 0 <= i < |output| :: output[i].MessageItem? && AnyText(TextsOf(output[i].content))
  }

  /** A stream that brings nothing but its completed response is accepted exactly if the
      response is well formed: distinct ids, finished text messages and no tool call,
      and some text. All of it is then replayed. */
  lemma BareResponseIff(output: seq<Item>)
    ensures Ran([Completed(true, output)]).Some? <==> SelfContained(output) && SomeText(output)
  {
    hide CanConclude;
    var e := Completed(true, output);
    assert [e][..0] == [] && Ran([]) == Some(INITIAL);
    assert Ran([e]).Some? <==> CanProcess(INITIAL, e);
    BareConclusion(output);
  }

  lemma BareConclusion(output: seq<Item>)
    ensures CanConclude(INITIAL, output) <==> SelfContained(output) && SomeText(output)
  {
    hide SelfContained, SomeText, SettledAll;
    BareSettled(output);
  }

  lemma {:induction false} BareSettled(output: seq<Item>)
    ensures CanSettle(INITIAL, output) <==> SelfContained(output)
    ensures CanSettle(INITIAL, output) ==> Bare(SettledAll(INITIAL, output), output)
  {
    if output == [] {
    } else {
      var front, last := output[..|output| - 1], output[|output| - 1];
      assert output == front + [last];
      BareSettled(front);
      SelfContainedStep(front, last);
      if CanSettle(INITIAL, front) && last.id !in IdsIn(front) {
        BareStep(SettledAll(INITIAL, front), front, last, |front|);
      }
    }
  }

  /** The wrapper knows nothing but these items, all of them final. */
  ghost predicate Bare(s: State, output: seq<Item>) {
    && s.tools == map[] && s.deltas == map[] && s.added <= IdsIn(output)
    && (forall id | id in s.done :: Some(id) in IdsIn(output))
    && (s.visible <==> SomeText(output))
  }

  lemma SelfContainedStep(front: seq<Item>, last: Item)
    ensures SelfContained(front + [last]) <==> SelfContained(front) && last.id !in IdsIn(front) && Standalone(last)
  {
    var output := front + [last];
    if SelfContained(front) && last.id !in IdsIn(front) && Standalone(last) {
      forall i, j | 0 <= i < j < |output| ensures output[i].id != output[j].id {
        if j == |front| { assert front[i] in front; }
      }
    }
    if SelfContained(output) {
      assert output[|front|] == last;
      assert forall i | 0 <= i < |front| :: output[i] == front[i];
      forall i | 0 <= i < |front| ensures front[i].id != last.id {
        assert output[i].id != output[|front|].id;
      }
    }
  }

  lemma BareStep(s: State, front: seq<Item>, last: Item, i: int)
    requires Bare(s, front) && last.id !in IdsIn(front)
    ensures CanClose(s, last) <==> Standalone(last)
    ensures CanClose(s, last) ==> Bare(Settled(s, last, i), front + [last])
  {
    hide TextsOf, AllText, AnyText, Opening, Repairs;
    SomeTextStep(front, last);
    IdsStep(front, last);
  }

  lemma SomeTextStep(front: seq<Item>, last: Item)
    ensures SomeText(front + [last]) <==> SomeText(front) || (last.MessageItem? && AnyText(TextsOf(last.content)))
  {
    var output := front + [last];
    assert output[|front|] == last;
    assert forall i | 0 <= i < |front| :: output[i] == front[i];
  }

  lemma IdsStep(front: seq<Item>, last: Item)
    ensures IdsIn(front + [last]) == IdsIn(front) + {last.id}
  {
  }

  function JoinedText(chunks: seq<string>): string {
    if chunks == [] then [] else JoinedText(chunks[..|chunks| - 1]) + chunks[|chunks| - 1]
  }

  /** A message announced, and streamed in chunks. */
  function Streamed(id: Id, announced: Item, chunks: seq<string>): seq<Event> {
    if chunks == [] then [ItemAdded(0, announced)]
    else Streamed(id, announced, chunks[..|chunks| - 1]) + [TextDelta(Some(id), 0, Some(chunks[|chunks| - 1]))]
  }

  function StreamedState(id: Id, announced: Item, chunks: seq<string>): State {
    INITIAL.(added := {Some(id)}, deltas := if chunks == [] then map[] else map[(id, 0) := JoinedText(chunks)],
             visible := JoinedText(chunks) != [], log := Streamed(id, announced, chunks))
  }

  lemma RanOn(events: seq<Event>, s: State, e: Event)
    requires Ran(events) == Some(s)
    ensures Ran(events + [e]) == if CanProcess(s, e) then Some(Processed(s, e)) else None
  {
    hide CanProcess, Processed;
    assert (events + [e])[..|events|] == events;
  }

  lemma StreamedOn(id: Id, announced: Item, chunks: seq<string>)
    requires chunks != []
    ensures var front, e := chunks[..|chunks| - 1], TextDelta(Some(id), 0, Some(chunks[|chunks| - 1]));
            && CanProcess(StreamedState(id, announced, front), e)
            && Processed(StreamedState(id, announced, front), e) == StreamedState(id, announced, chunks)
  {
    var front, last := chunks[..|chunks| - 1], chunks[|chunks| - 1];
    var s := StreamedState(id, announced, front);
    assert JoinedText(chunks) == JoinedText(front) + last == Seen(s.deltas, id, 0) + last;
    assert s.deltas[(id, 0) := JoinedText(chunks)] == map[(id, 0) := JoinedText(chunks)];
  }

  lemma {:induction false} StreamedIsUnchanged(id: Id, announced: Item, chunks: seq<string>)
    requires announced.id == Some(id) && !announced.ToolItem?
    ensures Ran(Streamed(id, announced, chunks)) == Some(StreamedState(id, announced, chunks))
  {
    if chunks == [] {
      var e := ItemAdded(0, announced);
      RanOn([], INITIAL, e);
      assert [] + [e] == [e] && INITIAL.added + {Some(id)} == {Some(id)};
    } else {
      var front, last := chunks[..|chunks| - 1], chunks[|chunks| - 1];
      StreamedIsUnchanged(id, announced, front);
      StreamedOn(id, announced, chunks);
      RanOn(Streamed(id, announced, front), StreamedState(id, announced, front), TextDelta(Some(id), 0, Some(last)));
    }
  }

  /** A stream that already carries its text is forwarded as it is: whatever the chunks,
      a message that was announced, streamed and finished with the same text, and a
      response that repeats it, reach the adapter event by event without a repair. It
      is refused exactly if there was no text at all. */
  lemma CompleteStreamIsUnchanged(id: Id, announced: Item, chunks: seq<string>)
    requires announced.id == Some(id) && !announced.ToolItem?
    ensures var item := MessageItem(Some(id), true, [OutputText(JoinedText(chunks))]);
            var events := Streamed(id, announced, chunks) + [ItemDone(0, item)] + [Completed(true, [item])];
            && (Ran(events).Some? <==> JoinedText(chunks) != [])
            && (Ran(events).Some? ==> Ran(events).value.terminal && Ran(events).value.log == events)
  {
    var text := JoinedText(chunks);
    var item := MessageItem(Some(id), true, [OutputText(text)]);
    var start, s := Streamed(id, announced, chunks), StreamedState(id, announced, chunks);
    var s1 := Processed(s, ItemDone(0, item));
    StreamedIsUnchanged(id, announced, chunks);
    OneText(text);
    DoneStreamed(id, announced, chunks);
    RanOn(start, s, ItemDone(0, item));
    RanOn(start + [ItemDone(0, item)], s1, Completed(true, [item]));
    ConcludeOne(s1, item);
  }

  lemma OneText(text: string)
    ensures TextsOf([OutputText(text)]) == [text]
  {
    assert [OutputText(text)][..0] == [];
  }

  lemma DoneStreamed(id: Id, announced: Item, chunks: seq<string>)
    ensures var item := MessageItem(Some(id), true, [OutputText(JoinedText(chunks))]);
            var s := StreamedState(id, announced, chunks);
            && CanProcess(s, ItemDone(0, item))
            && Processed(s, ItemDone(0, item)) == s.(done := map[id := [JoinedText(chunks)]],
                                                     log := s.log + [ItemDone(0, item)])
  {
    var text := JoinedText(chunks);
    OneText(text);
    var deltas := StreamedState(id, announced, chunks).deltas;
    assert Repairs(deltas, id, [text], 1) == Repairs(deltas, id, [text], 0) + [];
    assert AnyText([text]) <==> [text][0] != [];
  }

  /** A response with a single message that is done already. */
  lemma ConcludeOne(s: State, item: Item)
    requires item.MessageItem? && Finishable(s.done, s.deltas, item) && item.id.value in s.done
    ensures SettledAll(s, [item]) == s
    ensures CanConclude(s, [item]) <==> s.visible && Observed(s) <= {item.id}
  {
    hide Finishable;
    assert [item][..0] == [] && IdsIn([]) == {} && SettledAll(s, []) == s;
    assert IdsIn([item]) == {item.id};
    assert CanSettle(s, [item]);
  }
}
