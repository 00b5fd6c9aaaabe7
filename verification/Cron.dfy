/** packages/core/src/cron.ts: five-field cron expressions, and the search for
    the next firing minute that skips whole days.

    Instants are integers: milliseconds since 1970 at the interface, minutes
    since 1970 inside. The time zone is a fixed offset from UTC in minutes. */
module Cron {
  import opened Wrappers
  import opened Calendar

  datatype CronField = CronField(values: set<int>, isWildcard: bool)

  datatype ParsedCron = ParsedCron(minute: CronField, hour: CronField, dom: CronField, month: CronField, dow: CronField)

  datatype CronError = BadStep | BadField | OutOfRange | FieldCount

  // ---------------------------------------------------------------------
  // Parsing
  // ---------------------------------------------------------------------

  /** JavaScript's `s.split(c)` for a one-character separator. */
  function Split(s: string, c: char): (parts: seq<string>)
    ensures |parts| >= 1
  {
    if s == "" then [""]
    else
      var rest := Split(s[1..], c);
      if s[0] == c then [""] + rest else [[s[0]] + rest[0]] + rest[1..]
  }

  predicate IsSpace(c: char) {
    c in {' ', '\t', '\n', '\r', '\U{0B}', '\U{0C}'}
  }

  function TrimStart(s: string): string {
    if s != "" && IsSpace(s[0]) then TrimStart(s[1..]) else s
  }

  predicate IsDigit(c: char) {
    '0' <= c <= '9'
  }

  /** The value of the leading digits of `s`, continuing from `acc`. */
  function Digits(s: string, acc: nat): nat {
    if s != "" && IsDigit(s[0]) then Digits(s[1..], 10 * acc + (s[0] - '0') as nat) else acc
  }

  /** JavaScript's `parseInt(s, 10)`; `None` stands for NaN. */
  function ParseInt(s: string): Option<int> {
    var t := TrimStart(s);
    var negative := t != "" && t[0] == '-';
    var u := if t != "" && t[0] in {'-', '+'} then t[1..] else t;
    if u == "" || !IsDigit(u[0]) then None
    else Some(if negative then 0 - Digits(u, 0) else Digits(u, 0))
  }

  datatype Range = Range(lo: int, hi: int, step: int)

  /** One comma-separated part of a field: its bounds and step, or why it is refused. */
  function ParsePart(part: string, min: int, max: int): Result<Range, CronError> {
    var slash := Split(part, '/');
    var range := slash[0];
    var step := if |slash| > 1 && slash[1] != "" then ParseInt(slash[1]) else Some(1);
    if step.None? || step.value <= 0 then Err(BadStep)
    else
      var bounds := Split(range, '-');
      var lo := if range == "*" then Some(min) else ParseInt(bounds[0]);
      var hi := if range == "*" then Some(max) else if |bounds| > 1 then ParseInt(bounds[1]) else lo;
      if lo.None? || hi.None? then Err(BadField)
      else if lo.value < min || hi.value > max || lo.value > hi.value then Err(OutOfRange)
      else Ok(Range(lo.value, hi.value, step.value))
  }

  /** A part selects the values of its range that lie a whole number of steps from its start. */
  predicate Selects(part: string, min: int, max: int, v: int) {
    var range := ParsePart(part, min, max);
    range.Ok? && range.value.lo <= v <= range.value.hi && (v - range.value.lo) % range.value.step == 0
  }

  predicate SelectedBy(parts: seq<string>, min: int, max: int, v: int) {
    exists i | 0 <= i < |parts| :: Selects(parts[i], min, max, v)
  }

  predicate FieldParses(spec: string, min: int, max: int) {
    forall i | 0 <= i < |Split(spec, ',')| :: ParsePart(Split(spec, ',')[i], min, max).Ok?
  }

  ghost predicate ParsedAs(spec: string, min: int, max: int, f: CronField) {
    && (forall v :: v in f.values <==> SelectedBy(Split(spec, ','), min, max, v))
    && (f.isWildcard <==> "*" in Split(spec, ','))
  }

  /** The first part that does not parse is refused with this error. */
  predicate FieldFails(spec: string, min: int, max: int, error: CronError) {
    exists i | 0 <= i < |Split(spec, ',')| :: FailsAt(Split(spec, ','), i, min, max, error)
  }

  predicate FailsAt(parts: seq<string>, i: nat, min: int, max: int, error: CronError) {
    && i < |parts| && ParsePart(parts[i], min, max) == Err(error)
    && forall j | 0 <= j < i :: ParsePart(parts[j], min, max).Ok?
  }

  predicate FieldIn(f: CronField, min: int, max: int) {
    f.values != {} && forall v | v in f.values :: min <= v <= max
  }

  /** A field parses exactly when all its parts do; it then holds the union of
      what the parts select, and only a bare `*` part makes it a wildcard. */
  method ParseField(spec: string, min: int, max: int) returns (r: Result<CronField, CronError>)
    ensures r.Ok? <==> FieldParses(spec, min, max)
    ensures r.Ok? ==> ParsedAs(spec, min, max, r.value) && FieldIn(r.value, min, max)
    ensures r.Err? ==> FieldFails(spec, min, max, r.error)
  {
    hide Split, ParsePart, Selects, SelectedBy;
    var parts := Split(spec, ',');
    var values: set<int> := {};
    NoneSelected(parts, min, max);
    var isWildcard := false;
    for i := 0 to |parts|
      invariant forall j | 0 <= j < i :: ParsePart(parts[j], min, max).Ok?
      invariant forall v :: v in values <==> SelectedBy(parts[..i], min, max, v)
      invariant i > 0 ==> values != {}
      invariant isWildcard <==> "*" in parts[..i]
    {
      var parsed := ParsePart(parts[i], min, max);
      if parsed.Err? {
        assert FailsAt(Split(spec, ','), i, min, max, parsed.error);
        return Err(parsed.error);
      }
      if parts[i] == "*" {
        isWildcard := true;
      }
      PartIsRange(parts[i], min, max);
      var range := parsed.value;
      values := AddRange(values, range);
      SelectedByOneMore(parts, i, min, max);
      forall v ensures v in values <==> SelectedBy(parts[..i + 1], min, max, v) {
        assert Selects(parts[i], min, max, v) <==> range.lo <= v <= range.hi && (v - range.lo) % range.step == 0;
      }
      assert parts[..i + 1] == parts[..i] + [parts[i]];
    }
    assert parts[..|parts|] == parts;
    SelectedInRange(parts, min, max);
    return Ok(CronField(values, isWildcard));
  }

  lemma PartIsRange(part: string, min: int, max: int)
    requires ParsePart(part, min, max).Ok?
    ensures var range := ParsePart(part, min, max).value;
            && min <= range.lo <= range.hi <= max && range.step > 0
            && forall v :: Selects(part, min, max, v) <==> range.lo <= v <= range.hi && (v - range.lo) % range.step == 0
  {
  }

  lemma NoneSelected(parts: seq<string>, min: int, max: int)
    ensures forall v :: !SelectedBy(parts[..0], min, max, v)
  {
  }

  lemma SelectedInRange(parts: seq<string>, min: int, max: int)
    ensures forall v | SelectedBy(parts, min, max, v) :: min <= v <= max
  {
    forall v | SelectedBy(parts, min, max, v) ensures min <= v <= max {
      var i :| 0 <= i < |parts| && Selects(parts[i], min, max, v);
      hide ParsePart;
      PartIsRange(parts[i], min, max);
    }
  }

  /** The stepping loop of `parseField`, for one part. */
  method AddRange(before: set<int>, range: Range) returns (values: set<int>)
    requires range.lo <= range.hi && range.step > 0
    ensures forall w :: w in values <==> w in before || (range.lo <= w <= range.hi && (w - range.lo) % range.step == 0)
    ensures range.lo in values
  {
    values := before;
    var v := range.lo;
    while v <= range.hi
      invariant range.lo <= v && (v - range.lo) % range.step == 0
      invariant forall w :: w in values
                            <==> w in before || (range.lo <= w < v && w <= range.hi && (w - range.lo) % range.step == 0)
      invariant v == range.lo || range.lo in values
      decreases range.hi - v
    {
      values := values + {v};
      StepOnward(v - range.lo, range.step);
      v := v + range.step;
    }
  }

  /** Between a multiple of `step` and the next there is no other. */
  lemma StepOnward(k: int, step: int)
    requires step > 0 && k % step == 0
    ensures (k + step) % step == 0
    ensures forall j | k < j < k + step :: j % step != 0
  {
    var q := k / step;
    assert step * (q + 1) == step * q + step;
    QuotientIsUnique(k + step, step, q + 1, 0);
    forall j | k < j < k + step ensures j % step != 0 {
      QuotientIsUnique(j, step, q, j - k);
    }
  }

  lemma QuotientIsUnique(x: int, step: int, q: int, r: int)
    requires step > 0 && x == step * q + r && 0 <= r < step
    ensures x % step == r && x / step == q
  {
    if q < x / step {
      MultiplesGrow(step, q + 1, x / step);
    } else if q > x / step {
      MultiplesGrow(step, x / step + 1, q);
    }
  }

  lemma MultiplesGrow(step: int, a: int, b: int)
    requires step > 0 && a <= b
    ensures step * a <= step * b
  {
  }

  lemma SelectedByOneMore(parts: seq<string>, i: nat, min: int, max: int)
    requires i < |parts|
    ensures forall v :: SelectedBy(parts[..i + 1], min, max, v)
                        <==> SelectedBy(parts[..i], min, max, v) || Selects(parts[i], min, max, v)
  {
    forall v
      ensures SelectedBy(parts[..i + 1], min, max, v)
              <==> SelectedBy(parts[..i], min, max, v) || Selects(parts[i], min, max, v)
    {
      if SelectedBy(parts[..i], min, max, v) {
        var j :| 0 <= j < i && Selects(parts[..i][j], min, max, v);
        assert parts[..i + 1][j] == parts[..i][j];
      }
      if Selects(parts[i], min, max, v) {
        assert parts[..i + 1][i] == parts[i];
      }
      if SelectedBy(parts[..i + 1], min, max, v) {
        var j :| 0 <= j < i + 1 && Selects(parts[..i + 1][j], min, max, v);
        if j < i { assert parts[..i][j] == parts[..i + 1][j]; }
      }
    }
  }

  /** What every successfully parsed expression satisfies. */
  predicate WellFormed(p: ParsedCron) {
    && FieldIn(p.minute, 0, 59) && FieldIn(p.hour, 0, 23) && FieldIn(p.dom, 1, 31)
    && FieldIn(p.month, 1, 12) && FieldIn(p.dow, 0, 6)
  }

  /** The bounds of minute, hour, day of month, month and day of week. */
  const LOWEST := [0, 0, 1, 1, 0]
  const HIGHEST := [59, 23, 31, 12, 6]

  predicate AllParse(fields: seq<string>, n: nat) {
    n <= |fields| && n <= 5 && forall i | 0 <= i < n :: FieldParses(fields[i], LOWEST[i], HIGHEST[i])
  }

  /** The five-field check of `parseCron`, on an expression already split at white space:
      accepted exactly if there are five fields and each of them parses, and refused
      for the first that does not. */
  method ParseCron(fields: seq<string>) returns (r: Result<ParsedCron, CronError>)
    ensures r.Ok? <==> |fields| == 5 && AllParse(fields, 5)
    ensures r.Ok? ==> WellFormed(r.value)
    ensures r.Ok? ==>
              && ParsedAs(fields[0], 0, 59, r.value.minute) && ParsedAs(fields[1], 0, 23, r.value.hour)
              && ParsedAs(fields[2], 1, 31, r.value.dom) && ParsedAs(fields[3], 1, 12, r.value.month)
              && ParsedAs(fields[4], 0, 6, r.value.dow)
    ensures |fields| != 5 ==> r == Err(FieldCount)
    ensures r.Err? && |fields| == 5 ==>
              exists i | 0 <= i < 5 :: AllParse(fields, i) && FieldFails(fields[i], LOWEST[i], HIGHEST[i], r.error)
  {
    hide FieldParses, ParsedAs, FieldFails, FieldIn;
    if |fields| != 5 {
      return Err(FieldCount);
    }
    var minute := ParseField(fields[0], 0, 59);
    if minute.Err? { assert AllParse(fields, 0); return Err(minute.error); }
    var hour := ParseField(fields[1], 0, 23);
    if hour.Err? { assert AllParse(fields, 1); return Err(hour.error); }
    var dom := ParseField(fields[2], 1, 31);
    if dom.Err? { assert AllParse(fields, 2); return Err(dom.error); }
    var month := ParseField(fields[3], 1, 12);
    if month.Err? { assert AllParse(fields, 3); return Err(month.error); }
    var dow := ParseField(fields[4], 0, 6);
    if dow.Err? { assert AllParse(fields, 4); return Err(dow.error); }
    return Ok(ParsedCron(minute.value, hour.value, dom.value, month.value, dow.value));
  }

  // ---------------------------------------------------------------------
  // Matching
  // ---------------------------------------------------------------------

  const MINUTE_MS := 60_000
  const DAY := 1440
  const MAX_DAYS := 1500
  const HARD_ITER_CAP := MAX_DAYS * 1440 + 10_000

  datatype WallClock = WallClock(date: Date, hour: int, minute: int, weekday: int)

  /** The local day a minute belongs to. */
  function DayIndex(minute: int, offset: int): int {
    (minute + offset) / DAY
  }

  function MinuteOfDay(minute: int, offset: int): int {
    (minute + offset) % DAY
  }

  function PartsInTz(minute: int, offset: int): WallClock {
    var m := MinuteOfDay(minute, offset);
    var day := DayIndex(minute, offset);
    WallClock(DateOf(day), m / 60, m % 60, WeekdayOf(day))
  }

  /** Month, and day of month with day of week: their union when neither is `*`. */
  predicate DateMatches(p: ParsedCron, w: WallClock) {
    && w.date.month in p.month.values
    && (if p.dom.isWildcard && p.dow.isWildcard then true
        else if !p.dom.isWildcard && !p.dow.isWildcard then w.date.day in p.dom.values || w.weekday in p.dow.values
        else if !p.dom.isWildcard then w.date.day in p.dom.values
        else w.weekday in p.dow.values)
  }

  predicate TimeMatches(p: ParsedCron, w: WallClock) {
    w.hour in p.hour.values && w.minute in p.minute.values
  }

  /** A minute at which the expression fires. */
  predicate Fires(p: ParsedCron, offset: int, minute: int) {
    var w := PartsInTz(minute, offset);
    DateMatches(p, w) && TimeMatches(p, w)
  }

  predicate FiringDay(p: ParsedCron, day: int) {
    DateMatches(p, WallClock(DateOf(day), 0, 0, WeekdayOf(day)))
  }

  // ---------------------------------------------------------------------
  // Searching
  // ---------------------------------------------------------------------

  /** The simple form: try every minute from `m` until `end`. */
  function Scan(p: ParsedCron, offset: int, m: int, end: int): Option<int>
    decreases end - m
  {
    if m >= end then None
    else if Fires(p, offset, m) then Some(m)
    else Scan(p, offset, m + 1, end)
  }

  lemma {:induction false} ScanIsLeast(p: ParsedCron, offset: int, m: int, end: int)
    ensures var r := Scan(p, offset, m, end);
            match r
            case Some(v) => m <= v < end && Fires(p, offset, v) && forall k | m <= k < v :: !Fires(p, offset, k)
            case None => forall k | m <= k < end :: !Fires(p, offset, k)
    decreases end - m
  {
    if m < end && !Fires(p, offset, m) {
      ScanIsLeast(p, offset, m + 1, end);
    }
  }

  lemma {:induction false} ScanSkips(p: ParsedCron, offset: int, m: int, n: int, end: int)
    requires m <= n <= end
    requires forall k | m <= k < n :: !Fires(p, offset, k)
    ensures Scan(p, offset, m, end) == Scan(p, offset, n, end)
    decreases n - m
  {
    if m < n {
      ScanSkips(p, offset, m + 1, n, end);
    }
  }

  /** The first whole minute strictly after an instant. */
  function FirstMinute(after: int): int {
    after / MINUTE_MS + 1
  }

  /** Where the search gives up: 1500 days that do not match, after a first day that may. */
  function Horizon(p: ParsedCron, offset: int, after: int): int {
    var d := DayIndex(FirstMinute(after), offset);
    (d + MAX_DAYS + (if FiringDay(p, d) then 1 else 0)) * DAY - offset
  }

  /** The next firing instant, by trying every minute up to the horizon. */
  function NextFire(p: ParsedCron, offset: int, after: int): Option<int> {
    match Scan(p, offset, FirstMinute(after), Horizon(p, offset, after))
    case Some(m) => Some(m * MINUTE_MS)
    case None => None
  }

  /** The day-skipping search finds what the minute-by-minute scan finds, and
      its iteration cap never ends it. */
  method NextCronAfter(p: ParsedCron, offset: int, after: int) returns (r: Option<int>, iters: nat)
    requires WellFormed(p)
    ensures r == NextFire(p, offset, after)
    ensures iters < HARD_ITER_CAP
  {
    hide SearchProgress, WellFormed, NextFire;
    var start := FirstMinute(after);
    var cursor := start;
    var dayChecks := 0;
    iters := 0;
    SearchStarts(p, offset, after);
    while dayChecks < MAX_DAYS && iters < HARD_ITER_CAP
      invariant 0 <= dayChecks <= MAX_DAYS
      invariant SearchProgress(p, offset, after, cursor, dayChecks, iters)
      decreases MAX_DAYS - dayChecks, HARD_ITER_CAP - iters
    {
      var w := PartsInTz(cursor, offset);
      if !DateMatches(p, w) {
        var minsToMidnight := 24 * 60 - (w.hour * 60 + w.minute);
        SkipDay(p, offset, after, cursor, dayChecks, iters);
        cursor := cursor + Max(1, minsToMidnight);
        dayChecks, iters := dayChecks + 1, iters + 1;
        continue;
      }
      SearchHits(p, offset, after, cursor, dayChecks, iters);
      if TimeMatches(p, w) {
        return Some(cursor * MINUTE_MS), iters + 1;
      }
      SkipMinute(p, offset, after, cursor, dayChecks, iters);
      cursor, iters := cursor + 1, iters + 1;
    }
    SearchEnds(p, offset, after, cursor, dayChecks, iters);
    return None, iters;
  }

  /** The search up to `cursor` has passed over nothing that fires, in few enough iterations. */
  ghost predicate SearchProgress(p: ParsedCron, offset: int, after: int, cursor: int, dayChecks: int, iters: int) {
    var start, end := FirstMinute(after), Horizon(p, offset, after);
    && SearchState(p, offset, start, cursor, dayChecks)
    && iters <= dayChecks + Spent(offset, start, cursor)
    && cursor <= end && Scan(p, offset, start, end) == Scan(p, offset, cursor, end)
  }

  lemma SearchStarts(p: ParsedCron, offset: int, after: int)
    ensures SearchProgress(p, offset, after, FirstMinute(after), 0, 0)
  {
  }

  lemma SkipDay(p: ParsedCron, offset: int, after: int, cursor: int, dayChecks: int, iters: int)
    requires SearchProgress(p, offset, after, cursor, dayChecks, iters) && dayChecks < MAX_DAYS
    requires !DateMatches(p, PartsInTz(cursor, offset))
    ensures var w := PartsInTz(cursor, offset);
            SearchProgress(p, offset, after, cursor + Max(1, 24 * 60 - (w.hour * 60 + w.minute)), dayChecks + 1,
                           iters + 1)
  {
    hide Fires;
    var w, end := PartsInTz(cursor, offset), Horizon(p, offset, after);
    var to := cursor + Max(1, 24 * 60 - (w.hour * 60 + w.minute));
    DayJump(p, offset, cursor, to);
    hide Scan;
    ScanSkips(p, offset, cursor, to, end);
  }

  lemma SkipMinute(p: ParsedCron, offset: int, after: int, cursor: int, dayChecks: int, iters: int)
    requires WellFormed(p) && SearchProgress(p, offset, after, cursor, dayChecks, iters) && dayChecks < MAX_DAYS
    requires DateMatches(p, PartsInTz(cursor, offset)) && !TimeMatches(p, PartsInTz(cursor, offset))
    ensures SearchProgress(p, offset, after, cursor + 1, dayChecks, iters + 1)
  {
    hide WellFormed;
    MinuteStep(p, offset, FirstMinute(after), cursor, dayChecks);
    BeforeHorizon(p, offset, after, cursor, dayChecks, iters);
    ScanSkips(p, offset, cursor, cursor + 1, Horizon(p, offset, after));
  }

  /** A matching day lies before the horizon, and in it the iterations do not reach their cap. */
  lemma BeforeHorizon(p: ParsedCron, offset: int, after: int, cursor: int, dayChecks: int, iters: int)
    requires SearchProgress(p, offset, after, cursor, dayChecks, iters) && dayChecks < MAX_DAYS
    ensures cursor < Horizon(p, offset, after) && iters + 1 < HARD_ITER_CAP
  {
    hide Scan, Fires;
  }

  /** A firing minute that the search reaches is the one the scan finds. */
  lemma SearchHits(p: ParsedCron, offset: int, after: int, cursor: int, dayChecks: int, iters: int)
    requires SearchProgress(p, offset, after, cursor, dayChecks, iters) && dayChecks < MAX_DAYS
    requires DateMatches(p, PartsInTz(cursor, offset))
    ensures TimeMatches(p, PartsInTz(cursor, offset)) ==> NextFire(p, offset, after) == Some(cursor * MINUTE_MS)
    ensures iters + 1 < HARD_ITER_CAP
  {
    BeforeHorizon(p, offset, after, cursor, dayChecks, iters);
    hide SearchState, Horizon, DateMatches, TimeMatches;
  }

  lemma SearchEnds(p: ParsedCron, offset: int, after: int, cursor: int, dayChecks: int, iters: int)
    requires SearchProgress(p, offset, after, cursor, dayChecks, iters)
    requires dayChecks <= MAX_DAYS && (dayChecks == MAX_DAYS || iters >= HARD_ITER_CAP)
    ensures NextFire(p, offset, after) == None && iters < HARD_ITER_CAP
  {
    hide Fires, PartsInTz;
  }

  /** Iterations that advanced by a minute rather than by a day. */
  ghost function Spent(offset: int, start: int, cursor: int): int {
    if DayIndex(cursor, offset) == DayIndex(start, offset) then cursor - start
    else DAY + MinuteOfDay(cursor, offset)
  }

  /** Where the cursor stands, given how many non-matching days it has jumped over. */
  ghost predicate SearchState(p: ParsedCron, offset: int, start: int, cursor: int, dayChecks: int) {
    var first := DayIndex(start, offset);
    var day := DayIndex(cursor, offset);
    && start <= cursor
    && (day == first ==>
          && dayChecks == 0
          && (cursor > start ==> FiringDay(p, first)))
    && (day != first ==>
          && day - first == dayChecks + (if FiringDay(p, first) then 1 else 0)
          && (dayChecks == MAX_DAYS ==> MinuteOfDay(cursor, offset) == 0)
          && (MinuteOfDay(cursor, offset) != 0 ==> FiringDay(p, day))
          && forall k | cursor - MinuteOfDay(cursor, offset) <= k < cursor :: !TimeMatches(p, PartsInTz(k, offset)))
  }

  /** A day whose date does not match has no firing minute. */
  lemma DayJump(p: ParsedCron, offset: int, from: int, to: int)
    requires !DateMatches(p, PartsInTz(from, offset))
    requires to == from + DAY - MinuteOfDay(from, offset)
    ensures forall k | from <= k < to :: !Fires(p, offset, k)
    ensures DayIndex(to, offset) == DayIndex(from, offset) + 1 && MinuteOfDay(to, offset) == 0
  {
    forall k | from <= k < to ensures !Fires(p, offset, k) {
      assert DayIndex(k, offset) == DayIndex(from, offset);
    }
  }

  ghost function SomeValue(f: CronField, min: int, max: int): (v: int)
    requires FieldIn(f, min, max)
    ensures v in f.values && min <= v <= max
  {
    Element(f.values)
  }

  lemma MatchingDay(p: ParsedCron, offset: int, m: int)
    ensures DateMatches(p, PartsInTz(m, offset)) <==> FiringDay(p, DayIndex(m, offset))
  {
  }

  /** Every local day has a minute whose time matches. */
  lemma SomeTime(p: ParsedCron, offset: int, midnight: int) returns (k: int)
    requires WellFormed(p) && MinuteOfDay(midnight, offset) == 0
    ensures midnight <= k < midnight + DAY && TimeMatches(p, PartsInTz(k, offset))
  {
    var h, n := SomeValue(p.hour, 0, 23), SomeValue(p.minute, 0, 59);
    k := midnight + 60 * h + n;
    assert MinuteOfDay(k, offset) == 60 * h + n;
  }

  lemma NextMinute(offset: int, start: int, cursor: int)
    ensures var m := MinuteOfDay(cursor, offset);
            && 0 <= m < DAY
            && DayIndex(cursor + 1, offset) == DayIndex(cursor, offset) + (if m == DAY - 1 then 1 else 0)
            && MinuteOfDay(cursor + 1, offset) == (if m == DAY - 1 then 0 else m + 1)
    ensures DayIndex(cursor, offset) == DayIndex(start, offset) ==> cursor - start <= MinuteOfDay(cursor, offset)
    ensures MinuteOfDay(cursor - MinuteOfDay(cursor, offset), offset) == 0
  {
  }

  /** One minute on inside a matching day; a whole matching day cannot pass
      without a matching time. */
  lemma MinuteStep(p: ParsedCron, offset: int, start: int, cursor: int, dayChecks: int)
    requires WellFormed(p)
    requires SearchState(p, offset, start, cursor, dayChecks) && dayChecks < MAX_DAYS
    requires DateMatches(p, PartsInTz(cursor, offset)) && !TimeMatches(p, PartsInTz(cursor, offset))
    ensures SearchState(p, offset, start, cursor + 1, dayChecks)
    ensures Spent(offset, start, cursor + 1) >= Spent(offset, start, cursor) + 1
  {
    MatchingDay(p, offset, cursor);
    NextMinute(offset, start, cursor);
    hide WellFormed, TimeMatches, DateMatches, FiringDay, PartsInTz, DayIndex, MinuteOfDay;
    var m := MinuteOfDay(cursor, offset);
    if m == DAY - 1 && DayIndex(cursor, offset) != DayIndex(start, offset) {
      var k := SomeTime(p, offset, cursor - m);
      assert false;
    }
  }

  // ---------------------------------------------------------------------
  // What the search promises
  // ---------------------------------------------------------------------

  /** A result is the least firing instant strictly after `after`, found before the
      horizon; no result means that nothing fires for 1500 days from the local day
      of the first minute tried. */
  lemma NextFireIsLeast(p: ParsedCron, offset: int, after: int)
    ensures var r := NextFire(p, offset, after);
            match r
            case Some(t) =>
              && t > after && t % MINUTE_MS == 0 && Fires(p, offset, t / MINUTE_MS)
              && FirstMinute(after) <= t / MINUTE_MS < Horizon(p, offset, after)
              && forall k :: after < k * MINUTE_MS < t ==> !Fires(p, offset, k)
            case None =>
              forall k :: after < k * MINUTE_MS && DayIndex(k, offset) < DayIndex(FirstMinute(after), offset) + MAX_DAYS
                          ==> !Fires(p, offset, k)
  {
    var start, end := FirstMinute(after), Horizon(p, offset, after);
    ScanIsLeast(p, offset, start, end);
    match Scan(p, offset, start, end) {
      case Some(v) =>
        forall k | after < k * MINUTE_MS < v * MINUTE_MS ensures !Fires(p, offset, k) {
          assert start <= k < v;
        }
      case None =>
        forall k | after < k * MINUTE_MS && DayIndex(k, offset) < DayIndex(start, offset) + MAX_DAYS
          ensures !Fires(p, offset, k)
        {
          assert start <= k < end;
        }
    }
  }

  /** There is no result exactly if nothing fires between the first whole minute and
      the horizon: 1500 local days, and one more if the expression fires on the first. */
  lemma NothingFoundIff(p: ParsedCron, offset: int, after: int)
    ensures NextFire(p, offset, after).None? <==>
            forall k | FirstMinute(after) <= k < Horizon(p, offset, after) :: !Fires(p, offset, k)
  {
    ScanIsLeast(p, offset, FirstMinute(after), Horizon(p, offset, after));
    hide Fires, Horizon;
  }

  /** The horizon of a later search is not nearer. */
  lemma HorizonGrows(p: ParsedCron, offset: int, earlier: int, after: int)
    requires earlier <= after
    ensures Horizon(p, offset, earlier) <= Horizon(p, offset, after)
  {
    var a, b := FirstMinute(earlier) + offset, FirstMinute(after) + offset;
    assert a / DAY <= b / DAY;
    hide FiringDay;
  }

  /** Later starting points skip over nothing: searching again from a result
      or from any instant before it behaves as one scan. */
  lemma NextFireFromEarlier(p: ParsedCron, offset: int, earlier: int, after: int)
    requires earlier <= after
    requires NextFire(p, offset, earlier).Some? && NextFire(p, offset, earlier).value > after
    ensures NextFire(p, offset, after) == NextFire(p, offset, earlier)
  {
    NextFireIsLeast(p, offset, earlier);
    NextFireIsLeast(p, offset, after);
    NothingFoundIff(p, offset, after);
    HorizonGrows(p, offset, earlier, after);
    var a := NextFire(p, offset, earlier).value;
    assert (a / MINUTE_MS) * MINUTE_MS == a && a / MINUTE_MS >= FirstMinute(after);
    hide NextFire, Fires, Horizon;
    assert NextFire(p, offset, after).Some?;
    var b := NextFire(p, offset, after).value;
    assert (b / MINUTE_MS) * MINUTE_MS == b;
  }

  const LEAP_DAY := ParsedCron(CronField({0}, false), CronField({0}, false), CronField({29}, false),
                               CronField({2}, false), CronField({0, 1, 2, 3, 4, 5, 6}, true))

  /** `0 0 29 2 *` has no result on 1 March 2096 although it fires on
      29 February 2104: 1500 days do not cover the gap around a century year
      that is not a leap year. */
  lemma LeapDayBeyondHorizon(from: int, to: int)
    requires from == DayNumber(Date(2096, 3, 1)) && to == DayNumber(Date(2104, 2, 29))
    ensures WellFormed(LEAP_DAY)
    ensures NextFire(LEAP_DAY, 0, from * DAY * MINUTE_MS) == None
    ensures to > from && Fires(LEAP_DAY, 0, to * DAY)
  {
    LeapDayIsWellFormed();
    NoLeapDayFrom(from);
    LeapDayFires(to);
  }

  lemma LeapDayFires(to: int)
    requires to == DayNumber(Date(2104, 2, 29))
    ensures Fires(LEAP_DAY, 0, to * DAY)
  {
    DateOfDayNumber(Date(2104, 2, 29));
    assert DayIndex(to * DAY, 0) == to && MinuteOfDay(to * DAY, 0) == 0;
  }

  lemma LeapDayIsWellFormed()
    ensures WellFormed(LEAP_DAY)
  {
    assert 0 in LEAP_DAY.minute.values && 0 in LEAP_DAY.hour.values && 29 in LEAP_DAY.dom.values;
    assert 2 in LEAP_DAY.month.values && 0 in LEAP_DAY.dow.values;
  }

  lemma NoLeapDayFrom(from: int)
    requires from == DayNumber(Date(2096, 3, 1))
    ensures NextFire(LEAP_DAY, 0, from * DAY * MINUTE_MS) == None
  {
    DateOfDayNumber(Date(2096, 3, 1));
    var after := from * DAY * MINUTE_MS;
    var start, end := FirstMinute(after), Horizon(LEAP_DAY, 0, after);
    assert start == from * DAY + 1 && DayIndex(start, 0) == from;
    assert !FiringDay(LEAP_DAY, from);
    ScanIsLeast(LEAP_DAY, 0, start, end);
    forall m | start <= m < end ensures !Fires(LEAP_DAY, 0, m) {
      NoLeapMinute(from, m);
    }
  }

  lemma NoLeapMinute(from: int, m: int)
    requires from == DayNumber(Date(2096, 3, 1))
    requires from <= DayIndex(m, 0) < from + MAX_DAYS
    ensures !Fires(LEAP_DAY, 0, m)
  {
    var day := DayIndex(m, 0);
    DayNumberOfDate(day);
    NoLeapDayAfter2096(DateOf(day));
  }

  lemma NoLeapDayAfter2096(d: Date)
    requires ValidDate(d)
    requires DayNumber(Date(2096, 3, 1)) <= DayNumber(d) < DayNumber(Date(2104, 2, 29))
    ensures d.month != 2 || d.day != 29
  {
    if d.month == 2 && d.day == 29 {
      if d.year <= 2096 {
        YearsAreDisjoint(d.year - 1, 2096);
      } else if d.year >= 2104 {
        YearsAreDisjoint(2102, d.year - 1);
      } else {
        CommonYears2097To2103(d.year);
      }
    }
  }

  lemma CommonYears2097To2103(year: int)
    requires 2097 <= year <= 2103
    ensures !IsLeap(year)
  {
    assert year in {2097, 2098, 2099, 2100, 2101, 2102, 2103};
  }
}
