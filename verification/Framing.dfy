/** packages/core/src/discovery-rpc.ts: Content-Length framing of JSON messages
    (the framing of the "Base Protocol" of the Language Server Protocol). A byte
    is a `char` below 256. */
module Framing {
  import opened Wrappers

  const SEPARATOR := "\r\n\r\n"
  const FIELD := "Content-Length: "
  const HEADER_LIMIT := 8192
  const OUTPUT_LIMIT := 2 * 1024 * 1024

  // ---------------------------------------------------------------------
  // Decimal numbers
  // ---------------------------------------------------------------------

  predicate IsDigit(c: char) {
    '0' <= c <= '9'
  }

  function Decimal(n: nat): string {
    (if n < 10 then [] else Decimal(n / 10)) + ['0' + (n % 10) as char]
  }

  function Value(digits: string): nat
    requires forall i | 0 <= i < |digits| :: IsDigit(digits[i])
  {
    if digits == [] then 0
    else
      var last := digits[|digits| - 1];
      assert IsDigit(last);
      10 * Value(digits[..|digits| - 1]) + (last - '0') as nat
  }

  lemma {:induction false} DecimalIsDigits(n: nat)
    ensures Decimal(n) != [] && (forall i | 0 <= i < |Decimal(n)| :: IsDigit(Decimal(n)[i]))
    ensures Value(Decimal(n)) == n
    ensures n > 0 ==> Decimal(n)[0] != '0'
    ensures n < 10_000_000 ==> |Decimal(n)| <= 7
  {
    DecimalLength(n, 7);
    if n >= 10 {
      DecimalIsDigits(n / 10);
      assert Decimal(n)[..|Decimal(n)| - 1] == Decimal(n / 10);
    } else {
      assert Decimal(n)[..0] == [];
    }
  }

  function Power(k: nat): nat {
    if k == 0 then 1 else 10 * Power(k - 1)
  }

  lemma {:induction false} DecimalLength(n: nat, k: nat)
    requires k > 0
    ensures n < Power(k) ==> |Decimal(n)| <= k
    ensures Power(7) == 10_000_000
  {
    if n >= 10 && k > 1 { DecimalLength(n / 10, k - 1); }
  }

  // ---------------------------------------------------------------------
  // Reading a header
  // ---------------------------------------------------------------------

  /** `indexOf("\r\n\r\n")`. */
  function FindSeparator(b: string): (r: Option<nat>)
    ensures r.Some? ==> r.value + 4 <= |b| && b[r.value..r.value + 4] == SEPARATOR
  {
    if |b| < 4 then None
    else if b[..4] == SEPARATOR then Some(0)
    else
      match FindSeparator(b[1..])
      case Some(i) =>
        assert b[1..][i..i + 4] == b[i + 1..i + 5];
        Some(i + 1)
      case None => None
  }

  /** `split("\r\n")`. */
  function Lines(s: string): (r: seq<string>)
    ensures r != []
  {
    if s == [] then [[]]
    else if |s| >= 2 && s[0] == '\r' && s[1] == '\n' then [[]] + Lines(s[2..])
    else
      var rest := Lines(s[1..]);
      [[s[0]] + rest[0]] + rest[1..]
  }

  function Lower(c: char): char {
    if 'A' <= c <= 'Z' then c - 'A' + 'a' else c
  }

  predicate StartsWithField(line: string) {
    |line| >= 15 && forall i | 0 <= i < 15 :: Lower(line[i]) == "content-length:"[i]
  }

  predicate IsSpace(c: char) {
    c == ' ' || '\t' <= c <= '\r'
  }

  function SkipSpaces(s: string): (r: string)
    ensures |r| <= |s|
  {
    if s != [] && IsSpace(s[0]) then SkipSpaces(s[1..]) else s
  }

  function LeadingDigits(s: string): (r: string)
    ensures r <= s && forall i | 0 <= i < |r| :: IsDigit(r[i])
  {
    if s != [] && IsDigit(s[0]) then
      var r := LeadingDigits(s[1..]);
      assert s == [s[0]] + s[1..];
      [s[0]] + r
    else []
  }

  /** The number of `/^content-length:\s*([1-9][0-9]*)\s*$/i`. */
  function LengthIn(line: string): Option<nat> {
    if !StartsWithField(line) then None
    else
      var t := SkipSpaces(line[15..]);
      var digits := LeadingDigits(t);
      if digits != [] && digits[0] != '0' && SkipSpaces(t[|digits|..]) == [] then Some(Value(digits)) else None
  }

  function FieldsIn(lines: seq<string>): seq<string> {
    if lines == [] then []
    else (if StartsWithField(lines[0]) then [lines[0]] else []) + FieldsIn(lines[1..])
  }

  function Ascii(s: string): string {
    seq(|s|, i requires 0 <= i < |s| => (s[i] as int % 128) as char)
  }

  /** The announced length: from exactly one valid field, within the output limit. */
  function AnnouncedLength(header: string): (r: Option<nat>)
    ensures r.Some? ==> r.value <= OUTPUT_LIMIT
  {
    var fields := FieldsIn(Lines(Ascii(header)));
    if |fields| != 1 then None
    else
      match LengthIn(fields[0])
      case None => None
      case Some(n) => if n > OUTPUT_LIMIT then None else Some(n)
  }

  // ---------------------------------------------------------------------
  // Decoding a buffer
  // ---------------------------------------------------------------------

  /** What the front of a buffer holds: a frame with its payload between `start` and
      `stop`, the beginning of one, or no frame. */
  datatype Front = Frame(start: nat, stop: nat) | Incomplete | Malformed

  function FrontOf(b: string): (r: Front)
    ensures r.Frame? ==> 4 <= r.start <= r.stop <= |b|
  {
    match FindSeparator(b)
    case None => if |b| > HEADER_LIMIT then Malformed else Incomplete
    case Some(end) =>
      if end > HEADER_LIMIT then Malformed
      else
        match AnnouncedLength(b[..end])
        case None => Malformed
        case Some(n) => if |b| < end + 4 + n then Incomplete else Frame(end + 4, end + 4 + n)
  }

  datatype Decoded = Decoded(payloads: seq<string>, rest: string, failed: bool)

  /** Everything that can be taken from a buffer: complete payloads, and the rest. */
  function Decode(isObject: string -> bool, b: string): Decoded
    decreases |b|
  {
    if b == [] then Decoded([], [], false)
    else
      match FrontOf(b)
      case Incomplete => Decoded([], b, false)
      case Malformed => Decoded([], b, true)
      case Frame(start, stop) =>
        if !isObject(b[start..stop]) then Decoded([], b[stop..], true)
        else
          var d := Decode(isObject, b[stop..]);
          Decoded([b[start..stop]] + d.payloads, d.rest, d.failed)
  }

  class FramedReader {
    const isObject: string -> bool
    var framedBuffer: string
    var bytes: nat
    var failure: bool
    var received: seq<string>

    constructor (isObject: string -> bool)
      ensures framedBuffer == [] && bytes == 0 && !failure && received == [] && this.isObject == isObject
    {
      this.isObject := isObject;
      framedBuffer, bytes, failure, received := [], 0, false, [];
    }

    /** `readFramed`. */
    method ReadFramed(chunk: string)
      modifies this
      ensures old(failure) ==> failure && received == old(received)
      ensures !old(failure) ==> bytes == old(bytes) + |chunk|
      ensures !old(failure) && bytes > OUTPUT_LIMIT ==> failure && received == old(received)
      ensures !old(failure) && bytes <= OUTPUT_LIMIT ==>
                var d := Decode(isObject, old(framedBuffer) + chunk);
                failure == d.failed && received == old(received) + d.payloads && (!failure ==> framedBuffer == d.rest)
    {
      if failure { return; }
      bytes := bytes + |chunk|;
      if bytes > OUTPUT_LIMIT {
        failure := true;
        return;
      }
      var payloads: seq<string>;
      payloads, framedBuffer, failure := Drain(isObject, framedBuffer + chunk);
      received := received + payloads;
    }
  }

  /** The loop of `readFramed`. */
  method Drain(isObject: string -> bool, buffer: string) returns (taken: seq<string>, rest: string, failed: bool)
    ensures var d := Decode(isObject, buffer);
            taken == d.payloads && failed == d.failed && (!failed ==> rest == d.rest)
  {
    hide Decode, FrontOf;
    taken, rest, failed := [], buffer, false;
    while rest != []
      invariant !failed && Continues(Decode(isObject, buffer), taken, Decode(isObject, rest))
      decreases |rest|
    {
      DecodeStep(isObject, rest);
      match FrontOf(rest) {
        case Incomplete => return;
        case Malformed => return taken, rest, true;
        case Frame(start, stop) =>
          var json := rest[start..stop];
          rest := rest[stop..];
          if !isObject(json) { return taken, rest, true; }
          MovesOn(Decode(isObject, buffer), taken, json, Decode(isObject, rest));
          taken := taken + [json];
      }
    }
    DecodeStep(isObject, rest);
  }

  lemma MovesOn(whole: Decoded, taken: seq<string>, json: string, d: Decoded)
    requires Continues(whole, taken, Decoded([json] + d.payloads, d.rest, d.failed))
    ensures Continues(whole, taken + [json], d)
  {
    assert taken + ([json] + d.payloads) == (taken + [json]) + d.payloads;
  }

  /** Decoding a whole buffer took `taken` so far and goes on as `d`. */
  predicate Continues(whole: Decoded, taken: seq<string>, d: Decoded) {
    whole == Decoded(taken + d.payloads, d.rest, d.failed)
  }

  // ---------------------------------------------------------------------
  // Chunking
  // ---------------------------------------------------------------------

  lemma {:induction false} SeparatorStays(b: string, c: string)
    requires FindSeparator(b).Some?
    ensures FindSeparator(b + c) == FindSeparator(b)
  {
    assert (b + c)[..4] == b[..4];
    if b[..4] != SEPARATOR {
      assert (b + c)[1..] == b[1..] + c;
      SeparatorStays(b[1..], c);
    }
  }

  lemma FrameStays(b: string, c: string)
    requires FrontOf(b).Frame?
    ensures FrontOf(b + c) == FrontOf(b)
  {
    SeparatorStays(b, c);
    var end := FindSeparator(b).value;
    assert (b + c)[..end] == b[..end];
    hide FindSeparator, AnnouncedLength;
  }

  /** What was decoded is not decoded again: as long as nothing failed, decoding in
      pieces is decoding at once. */
  lemma {:induction false} DecodeInPieces(isObject: string -> bool, b: string, c: string)
    requires !Decode(isObject, b).failed
    ensures var d := Decode(isObject, b);
            Continues(Decode(isObject, b + c), d.payloads, Decode(isObject, d.rest + c))
    decreases |b|
  {
    hide FrontOf, Decode;
    DecodeStep(isObject, b);
    if b == [] {
      assert b + c == c;
    } else if FrontOf(b).Frame? {
      FrameStays(b, c);
      DecodeStep(isObject, b + c);
      var start, stop := FrontOf(b).start, FrontOf(b).stop;
      assert (b + c)[start..stop] == b[start..stop];
      assert (b + c)[stop..] == b[stop..] + c;
      DecodeInPieces(isObject, b[stop..], c);
      var tail := Decode(isObject, b[stop..]);
      assert [b[start..stop]] + (tail.payloads + Decode(isObject, tail.rest + c).payloads)
             == ([b[start..stop]] + tail.payloads) + Decode(isObject, tail.rest + c).payloads;
    }
  }

  /** One unfolding of `Decode`. */
  lemma DecodeStep(isObject: string -> bool, b: string)
    ensures b == [] ==> Decode(isObject, b) == Decoded([], [], false)
    ensures b != [] && FrontOf(b).Incomplete? ==> Decode(isObject, b) == Decoded([], b, false)
    ensures b != [] && FrontOf(b).Malformed? ==> Decode(isObject, b).payloads == [] && Decode(isObject, b).failed
    ensures b != [] && FrontOf(b).Frame? ==>
              var json, tail := b[FrontOf(b).start..FrontOf(b).stop], b[FrontOf(b).stop..];
              if !isObject(json) then Decode(isObject, b).payloads == [] && Decode(isObject, b).failed
              else Continues(Decode(isObject, b), [json], Decode(isObject, tail))
  {
    hide FrontOf;
  }

  // ---------------------------------------------------------------------
  // Streams of frames
  // ---------------------------------------------------------------------

  /** One frame of the peer, with whatever header fields it likes. */
  datatype PeerFrame = PeerFrame(header: string, payload: string)

  predicate WellFramed(isObject: string -> bool, f: PeerFrame) {
    && FindSeparator(f.header + SEPARATOR) == Some(|f.header|) && |f.header| <= HEADER_LIMIT
    && AnnouncedLength(f.header) == Some(|f.payload|) && isObject(f.payload)
  }

  function Bytes(f: PeerFrame): string {
    f.header + (SEPARATOR + f.payload)
  }

  function Sent(frames: seq<PeerFrame>): string {
    if frames == [] then [] else Bytes(frames[0]) + Sent(frames[1..])
  }

  function Payloads(frames: seq<PeerFrame>): seq<string> {
    if frames == [] then [] else [frames[0].payload] + Payloads(frames[1..])
  }

  /** Its separator fits into the header limit too, but for the last byte. */
  predicate Roomy(f: PeerFrame) {
    |f.header| + 3 <= HEADER_LIMIT
  }

  lemma Slices(h: string, payload: string, t: string)
    ensures var b := h + (SEPARATOR + (payload + t));
            && b[..|h|] == h && b[|h| + 4..|h| + 4 + |payload|] == payload && b[|h| + 4 + |payload|..] == t
  {
    var b, start := h + (SEPARATOR + (payload + t)), |h| + 4;
    assert b == (h + SEPARATOR) + (payload + t) && |h + SEPARATOR| == start;
    assert b[start..] == payload + t;
    assert b[start..start + |payload|] == b[start..][..|payload|];
    assert b[start + |payload|..] == b[start..][|payload|..];
  }

  lemma FrontOfFrame(isObject: string -> bool, f: PeerFrame, t: string)
    requires WellFramed(isObject, f)
    ensures var b, h := Bytes(f) + t, |f.header|;
            && FrontOf(b) == Frame(h + 4, h + 4 + |f.payload|)
            && b[h + 4..h + 4 + |f.payload|] == f.payload && b[h + 4 + |f.payload|..] == t
  {
    hide FindSeparator, AnnouncedLength;
    var b := Bytes(f) + t;
    assert b == (f.header + SEPARATOR) + (f.payload + t);
    assert b == f.header + (SEPARATOR + (f.payload + t));
    SeparatorStays(f.header + SEPARATOR, f.payload + t);
    Slices(f.header, f.payload, t);
  }

  /** A separator that has not fully arrived is not found. */
  lemma NotFoundYet(f: PeerFrame, b: string)
    requires FindSeparator(f.header + SEPARATOR) == Some(|f.header|)
    requires b <= f.header + SEPARATOR && |b| < |f.header| + 4
    ensures FindSeparator(b) == None
  {
    hide FindSeparator;
    if FindSeparator(b).Some? {
      var rest := (f.header + SEPARATOR)[|b|..];
      assert f.header + SEPARATOR == b + rest;
      SeparatorStays(b, rest);
    }
  }

  /** A frame that has not fully arrived is waited for, unless its separator is not
      complete and more than the header limit has arrived. */
  lemma FrontOfPart(isObject: string -> bool, f: PeerFrame, b: string)
    requires WellFramed(isObject, f) && b <= Bytes(f) && |b| < |Bytes(f)|
    ensures FrontOf(b) == if HEADER_LIMIT < |b| <= |f.header| + 3 then Malformed else Incomplete
  {
    hide FindSeparator, AnnouncedLength;
    assert Bytes(f) == (f.header + SEPARATOR) + f.payload;
    if |b| < |f.header| + 4 {
      assert b <= f.header + SEPARATOR;
      NotFoundYet(f, b);
    } else {
      var part := b[|f.header| + 4..];
      assert b == (f.header + SEPARATOR) + part;
      SeparatorStays(f.header + SEPARATOR, part);
      assert b[..|f.header|] == f.header;
    }
  }

  /** A stream of frames with roomy headers decodes to exactly their payloads, and no part
      of it is ever taken for a violation of the framing. */
  lemma {:induction false} DecodeStream(isObject: string -> bool, frames: seq<PeerFrame>, b: string)
    requires (forall f | f in frames :: WellFramed(isObject, f) && Roomy(f)) && b <= Sent(frames)
    ensures !Decode(isObject, b).failed
    ensures b == Sent(frames) ==> Decode(isObject, b) == Decoded(Payloads(frames), [], false)
    decreases |frames|
  {
    DecodeStep(isObject, b);
    hide Decode, FrontOf, Bytes, WellFramed;
    if frames != [] && b != [] {
      var first, rest := frames[0], frames[1..];
      assert first in frames && forall f | f in rest :: f in frames;
      var w := Bytes(first);
      BytesAreNotEmpty(first);
      if |b| < |w| {
        assert b <= w;
        FrontOfPart(isObject, first, b);
      } else {
        var t := b[|w|..];
        assert b == w + t && t <= Sent(rest);
        FrontOfFrame(isObject, first, t);
        ObjectsOnly(isObject, first);
        DecodeStream(isObject, rest, t);
      }
    } else if frames != [] {
      BytesAreNotEmpty(frames[0]);
    }
  }

  lemma BytesAreNotEmpty(f: PeerFrame)
    ensures Bytes(f) != [] && |Bytes(f)| == |f.header| + 4 + |f.payload|
  {
  }

  lemma ObjectsOnly(isObject: string -> bool, f: PeerFrame)
    requires WellFramed(isObject, f)
    ensures isObject(f.payload) && |f.header| <= HEADER_LIMIT
  {
  }

  /** Complete frames decode whatever follows them, roomy or not. */
  lemma {:induction false} DecodeBehind(isObject: string -> bool, frames: seq<PeerFrame>, t: string)
    requires forall f | f in frames :: WellFramed(isObject, f)
    ensures Continues(Decode(isObject, Sent(frames) + t), Payloads(frames), Decode(isObject, t))
    decreases |frames|
  {
    hide Decode, FrontOf, Bytes, WellFramed;
    if frames == [] {
      assert Sent(frames) + t == t;
    } else {
      var first, rest := frames[0], frames[1..];
      assert first in frames && forall f | f in rest :: f in frames;
      var b := Sent(frames) + t;
      assert b == Bytes(first) + (Sent(rest) + t);
      BytesAreNotEmpty(first);
      FrontOfFrame(isObject, first, Sent(rest) + t);
      ObjectsOnly(isObject, first);
      DecodeStep(isObject, b);
      DecodeBehind(isObject, rest, t);
      assert [first.payload] + (Payloads(rest) + Decode(isObject, t).payloads) == Payloads(frames) + Decode(isObject,
             t).payloads;
    }
  }

  // ---------------------------------------------------------------------
  // Chunk after chunk
  // ---------------------------------------------------------------------

  function Joined(chunks: seq<string>): string {
    if chunks == [] then [] else Joined(chunks[..|chunks| - 1]) + chunks[|chunks| - 1]
  }

  /** What `readFramed` has made of all the chunks so far. */
  function Fed(isObject: string -> bool, chunks: seq<string>): Decoded {
    if chunks == [] then Decoded([], [], false)
    else
      var n := |chunks| - 1;
      var before := Fed(isObject, chunks[..n]);
      if before.failed then before
      else if |Joined(chunks)| > OUTPUT_LIMIT then before.(failed := true)
      else
        var d := Decode(isObject, before.rest + chunks[n]);
        Decoded(before.payloads + d.payloads, d.rest, d.failed)
  }

  /** Chunk after chunk, the reader does what `Fed` says. */
  method ReadAll(isObject: string -> bool, chunks: seq<string>) returns (reader: FramedReader)
    ensures var d := Fed(isObject, chunks);
            reader.failure == d.failed && reader.received == d.payloads && (!d.failed ==> reader.framedBuffer == d.rest)
  {
    hide Decode;
    reader := new FramedReader(isObject);
    for i := 0 to |chunks|
      invariant fresh(reader) && reader.isObject == isObject
      invariant var d := Fed(isObject, chunks[..i]);
                reader.failure == d.failed && reader.received == d.payloads
                    && (!d.failed ==> reader.framedBuffer == d.rest)
      invariant !reader.failure ==> reader.bytes == |Joined(chunks[..i])|
    {
      assert chunks[..i + 1][..i] == chunks[..i];
      reader.ReadFramed(chunks[i]);
    }
    assert chunks[..|chunks|] == chunks;
  }

  lemma {:induction false} JoinedPrefix(chunks: seq<string>, i: nat)
    requires i <= |chunks|
    ensures Joined(chunks[..i]) <= Joined(chunks)
  {
    if i < |chunks| {
      JoinedPrefix(chunks[..|chunks| - 1], i);
      assert chunks[..|chunks| - 1][..i] == chunks[..i];
    } else {
      assert chunks[..i] == chunks;
    }
  }

  predicate Delivers(isObject: string -> bool, chunks: seq<string>, payloads: seq<string>) {
    Fed(isObject, chunks) == Decoded(payloads, [], false)
  }

  /** While nothing fails, the chunks so far are decoded as one buffer. */
  lemma {:induction false} FedIsDecode(isObject: string -> bool, frames: seq<PeerFrame>, chunks: seq<string>)
    requires forall f | f in frames :: WellFramed(isObject, f) && Roomy(f)
    requires Joined(chunks) <= Sent(frames) && |Joined(chunks)| <= OUTPUT_LIMIT
    ensures Fed(isObject, chunks) == Decode(isObject, Joined(chunks)) && !Fed(isObject, chunks).failed
    decreases |chunks|
  {
    hide Decode, WellFramed;
    if chunks == [] {
      DecodeStep(isObject, []);
    } else {
      var n := |chunks| - 1;
      var fed := Joined(chunks[..n]);
      JoinedPrefix(chunks, n);
      FedIsDecode(isObject, frames, chunks[..n]);
      DecodeStream(isObject, frames, fed + chunks[n]);
      DecodeInPieces(isObject, fed, chunks[n]);
    }
  }

  /** With all but the last byte of its separator a header of 8190 to 8192 bytes, which is
      within the limit, already counts as too long: cut there, the stream fails. */
  lemma CutSeparatorFails(isObject: string -> bool, frames: seq<PeerFrame>, i: nat) returns (chunks: seq<string>)
    requires forall f | f in frames :: WellFramed(isObject, f)
    requires i < |frames| && !Roomy(frames[i]) && |Sent(frames)| <= OUTPUT_LIMIT
    ensures Joined(chunks) == Sent(frames) && Fed(isObject, chunks).failed
  {
    hide Decode, WellFramed;
    var f := frames[i];
    var part := f.header + "\r\n\r";
    var cut := Sent(frames[..i]) + part;
    assert f in frames && forall g | g in frames[..i] :: g in frames;
    SentInPieces(frames, i);
    assert Bytes(f) == part + (['\n'] + f.payload);
    BytesAreNotEmpty(f);
    FrontOfPart(isObject, f, part);
    DecodeStep(isObject, part);
    DecodeBehind(isObject, frames[..i], part);
    var rest := (['\n'] + f.payload) + Sent(frames[i + 1..]);
    assert Sent(frames) == cut + rest;
    chunks := [cut, rest];
    TwoChunks(isObject, cut, rest);
  }

  lemma TwoChunks(isObject: string -> bool, a: string, b: string)
    requires |a + b| <= OUTPUT_LIMIT && Decode(isObject, a).failed
    ensures Joined([a, b]) == a + b && Fed(isObject, [a, b]).failed
  {
    hide Decode;
    assert [a, b][..1] == [a] && [a][..0] == [];
    assert Joined([a]) == a && [] + a == a;
    assert Fed(isObject, [a]).failed;
  }

  lemma {:induction false} SentInPieces(frames: seq<PeerFrame>, i: nat)
    requires i < |frames|
    ensures Sent(frames) == Sent(frames[..i]) + Bytes(frames[i]) + Sent(frames[i + 1..])
    decreases i
  {
    hide Bytes;
    if i > 0 {
      SentInPieces(frames[1..], i - 1);
      assert frames[1..][..i - 1] == frames[..i][1..] && frames[1..][i..] == frames[i + 1..];
    } else {
      assert frames[..0] == [] && Sent(frames[..0]) == [];
      assert [] + Bytes(frames[0]) == Bytes(frames[0]);
    }
  }

  /** A well-framed stream of the peer within the output limit is delivered exactly and
      in order however it is cut into chunks, if and only if no header in it is longer
      than 8189 bytes. */
  lemma EveryChunkingDeliversIff(isObject: string -> bool, frames: seq<PeerFrame>)
    requires (forall f | f in frames :: WellFramed(isObject, f)) && |Sent(frames)| <= OUTPUT_LIMIT
    ensures (forall chunks | Joined(chunks) == Sent(frames) :: Delivers(isObject, chunks, Payloads(frames)))
            <==> (forall f | f in frames :: |f.header| <= HEADER_LIMIT - 3)
  {
    hide Fed, Decode, WellFramed;
    if forall f | f in frames :: Roomy(f) {
      forall chunks | Joined(chunks) == Sent(frames) ensures Delivers(isObject, chunks, Payloads(frames)) {
        FedIsDecode(isObject, frames, chunks);
        DecodeStream(isObject, frames, Joined(chunks));
      }
      assert forall f | f in frames :: Roomy(f);
    } else {
      var f :| f in frames && !Roomy(f);
      var i :| 0 <= i < |frames| && frames[i] == f;
      var chunks := CutSeparatorFails(isObject, frames, i);
      assert !Delivers(isObject, chunks, Payloads(frames));
    }
  }

  // ---------------------------------------------------------------------
  // Written frames
  // ---------------------------------------------------------------------

  function Header(n: nat): string {
    FIELD + Decimal(n)
  }

  /** `write`, for the JSON text of one message. */
  function Written(payload: string): string {
    Header(|payload|) + (SEPARATOR + payload)
  }

  predicate NoBreak(s: string) {
    forall i | 0 <= i < |s| :: s[i] != '\r' && s[i] != '\n' && s[i] < 128 as char
  }

  lemma {:induction false} FindAfter(h: string, t: string)
    requires NoBreak(h)
    ensures FindSeparator(h + (SEPARATOR + t)) == Some(|h|)
  {
    var b := h + (SEPARATOR + t);
    if h == [] {
      assert b[..4] == SEPARATOR;
    } else {
      assert b[0] == h[0] && b[..4][0] == h[0];
      assert b[1..] == h[1..] + (SEPARATOR + t);
      FindAfter(h[1..], t);
    }
  }

  lemma {:induction false} OneLine(h: string)
    requires NoBreak(h)
    ensures Lines(h) == [h] && Ascii(h) == h
  {
    if h != [] {
      OneLine(h[1..]);
      assert [h[0]] + h[1..] == h;
    }
  }

  lemma {:induction false} AllDigits(s: string)
    requires forall i | 0 <= i < |s| :: IsDigit(s[i])
    ensures LeadingDigits(s) == s
  {
    if s != [] {
      AllDigits(s[1..]);
      assert s == [s[0]] + s[1..];
    }
  }

  lemma HeaderIsPlain(n: nat)
    ensures NoBreak(Header(n))
    ensures n < 10_000_000 ==> |Header(n)| <= 23
  {
    DecimalIsDigits(n);
  }

  /** The header of a written message announces its length. */
  lemma HeaderAnnounces(n: nat)
    requires 0 < n <= OUTPUT_LIMIT
    ensures AnnouncedLength(Header(n)) == Some(n)
  {
    var h, d := Header(n), Decimal(n);
    HeaderIsPlain(n);
    OneLine(h);
    DecimalIsDigits(n);
    FieldMatches(h, d);
    hide Lines, Ascii, Decimal, StartsWithField;
    LengthMatches(h, d, n);
    hide LengthIn;
    assert FieldsIn([h][1..]) == [];
    assert FieldsIn([h]) == [h];
  }

  lemma LengthMatches(h: string, d: string, n: nat)
    requires h == FIELD + d && StartsWithField(h) && d != [] && d[0] != '0'
    requires (forall i | 0 <= i < |d| :: IsDigit(d[i])) && Value(d) == n
    ensures LengthIn(h) == Some(n)
  {
    hide StartsWithField, Value;
    assert h[15..] == [' '] + d && ([' '] + d)[1..] == d;
    assert IsDigit(d[0]);
    assert SkipSpaces(d) == d && SkipSpaces(h[15..]) == d;
    AllDigits(d);
    assert d[|d|..] == [];
  }

  lemma FieldMatches(h: string, d: string)
    requires h == FIELD + d
    ensures StartsWithField(h)
  {
    assert forall i | 0 <= i < 15 :: h[i] == FIELD[i];
  }

  predicate Writable(isObject: string -> bool, payload: string) {
    0 < |payload| <= OUTPUT_LIMIT && isObject(payload)
  }

  function Frames(payloads: seq<string>): seq<PeerFrame> {
    if payloads == [] then [] else [PeerFrame(Header(|payloads[0]|), payloads[0])] + Frames(payloads[1..])
  }

  lemma WrittenIsFramed(isObject: string -> bool, payload: string)
    requires Writable(isObject, payload)
    ensures var f := PeerFrame(Header(|payload|), payload);
            WellFramed(isObject, f) && Roomy(f) && Bytes(f) == Written(payload)
  {
    var h := Header(|payload|);
    HeaderIsPlain(|payload|);
    HeaderAnnounces(|payload|);
    hide Header, FindSeparator, AnnouncedLength;
    FindAfter(h, []);
    assert SEPARATOR + [] == SEPARATOR;
  }

  lemma {:induction false} WrittenAreFramed(isObject: string -> bool, payloads: seq<string>)
    requires forall p | p in payloads :: Writable(isObject, p)
    ensures Payloads(Frames(payloads)) == payloads
    ensures forall f | f in Frames(payloads) :: WellFramed(isObject, f) && Roomy(f)
  {
    hide WellFramed, Roomy, Header;
    if payloads != [] {
      assert payloads[0] in payloads && forall p | p in payloads[1..] :: p in payloads;
      WrittenIsFramed(isObject, payloads[0]);
      WrittenAreFramed(isObject, payloads[1..]);
    }
  }

  /** Whatever way a stream of written messages is cut into chunks, as long as it is
      within the output limit exactly those messages are received, in order, and
      nothing is left over. */
  lemma WrittenStreamArrives(isObject: string -> bool, payloads: seq<string>, chunks: seq<string>)
    requires forall p | p in payloads :: Writable(isObject, p)
    requires Joined(chunks) == Sent(Frames(payloads)) && |Joined(chunks)| <= OUTPUT_LIMIT
    ensures Delivers(isObject, chunks, payloads)
  {
    hide Fed, Decode, WellFramed, Roomy;
    WrittenAreFramed(isObject, payloads);
    FedIsDecode(isObject, Frames(payloads), chunks);
    DecodeStream(isObject, Frames(payloads), Joined(chunks));
  }
}
