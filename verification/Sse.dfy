/**
 * The server-sent-event reader of the model transport: text arrives in chunks cut
 * anywhere, lines are cut out of a growing buffer, and a blank line ends an event.
 */
module Sse {
  import opened Prelude

  const MAX_PROVIDER_RESPONSE_BYTES := 1024 * 1024

  /** One read of the network body: its size, and the text the stream decoder added for it. */
  datatype Chunk = Chunk(bytes: nat, text: string)

  /** How a reading stopped: `[DONE]`, end of the body, the size cap, or an undecodable event. */
  datatype Ending = DoneMarker | BodyEnd | TooLarge | BadEvent

  datatype Reading<+P> = Reading(events: seq<P>, ending: Ending)

  /** What a run of data lines decodes to. */
  datatype Decoded<+P> = Nothing | Done | Event(payload: P) | Bad

  function TrimStart(s: string): string {
    if s != "" && IsSpace(s[0]) then TrimStart(s[1..]) else s
  }

  function TrimEnd(s: string): string {
    if s != "" && IsSpace(s[|s| - 1]) then TrimEnd(s[..|s| - 1]) else s
  }

  function Trim(s: string): string {
    TrimEnd(TrimStart(s))
  }

  function JoinLines(lines: seq<string>): string {
    if lines == [] then ""
    else if |lines| == 1 then lines[0]
    else lines[0] + "\n" + JoinLines(lines[1..])
  }

  function StripCr(line: string): string {
    if line != "" && line[|line| - 1] == '\r' then line[..|line| - 1] else line
  }

  function DataOf(line: string): Option<string> {
    if "data:" <= line then Some(TrimStart(line[5..])) else None
  }

  function Decode<P>(data: seq<string>, parse: string -> Option<P>): Decoded<P> {
    if data == [] then Nothing
    else
      var value := Trim(JoinLines(data));
      if value == "[DONE]" then Done
      else
        match parse(value)
        case Some(payload) => Event(payload)
        case None => Bad
  }

  // ---------------------------------------------------------------- meaning of a whole text

  /** The state between two lines: pending data lines, events so far, and an ending once reached. */
  datatype Scan<+P> = Scan(data: seq<string>, events: seq<P>, ended: Option<Ending>)

  function FeedLine<P>(s: Scan<P>, raw: string, parse: string -> Option<P>): Scan<P> {
    if s.ended.Some? then s
    else
      var line := StripCr(raw);
      if line == "" then
        match Decode(s.data, parse)
        case Nothing => s
        case Done => Scan([], s.events, Some(DoneMarker))
        case Event(payload) => Scan([], s.events + [payload], None)
        case Bad => Scan([], s.events, Some(BadEvent))
      else
        match DataOf(line)
        case Some(data) => s.(data := s.data + [data])
        case None => s
  }

  function FeedLines<P>(s: Scan<P>, lines: seq<string>, parse: string -> Option<P>): Scan<P>
    decreases |lines|
  {
    if lines == [] then s else FeedLines(FeedLine(s, lines[0], parse), lines[1..], parse)
  }

  /** The index of the first line feed, or the length of the text when it has none. */
  function LineEnd(text: string): (k: nat)
    ensures k <= |text|
    ensures '\n' !in text[..k]
    ensures k < |text| ==> text[k] == '\n'
  {
    if text == "" || text[0] == '\n' then 0
    else
      var k := 1 + LineEnd(text[1..]);
      assert text[..k] == [text[0]] + text[1..][..k - 1];
      k
  }

  /** The lines of a text that a line feed ends, and what follows the last line feed. */
  function SplitLines(text: string): (r: (seq<string>, string))
    ensures '\n' !in r.1
    decreases |text|
  {
    var k := LineEnd(text);
    if k == |text| then
      assert text[..k] == text;
      ([], text)
    else
      var (lines, rest) := SplitLines(text[k + 1..]);
      ([text[..k]] + lines, rest)
  }

  /** The end of the body: an unterminated last line still counts, then the pending event is decoded. */
  function Finish<P>(s: Scan<P>, rest: string, parse: string -> Option<P>): Reading<P> {
    if s.ended.Some? then Reading(s.events, s.ended.value)
    else
      var line := StripCr(rest);
      var data := if DataOf(line).Some? then s.data + [DataOf(line).value] else s.data;
      match Decode(data, parse)
      case Event(payload) => Reading(s.events + [payload], BodyEnd)
      case Bad => Reading(s.events, BadEvent)
      case _ => Reading(s.events, BodyEnd)
  }

  /** What a text means, with no chunks in sight. */
  function ReadText<P>(text: string, parse: string -> Option<P>): Reading<P> {
    var (lines, rest) := SplitLines(text);
    Finish(FeedLines(Scan([], [], None), lines, parse), rest, parse)
  }

  // ---------------------------------------------------------------- chunks

  function TotalBytes(chunks: seq<Chunk>): nat {
    if chunks == [] then 0 else TotalBytes(chunks[..|chunks| - 1]) + chunks[|chunks| - 1].bytes
  }

  function TextOf(chunks: seq<Chunk>): string {
    if chunks == [] then "" else TextOf(chunks[..|chunks| - 1]) + chunks[|chunks| - 1].text
  }

  /** How many leading chunks stay within the cap. */
  function Admitted(chunks: seq<Chunk>): (n: nat)
    ensures n <= |chunks|
    ensures TotalBytes(chunks[..n]) <= MAX_PROVIDER_RESPONSE_BYTES
    ensures n < |chunks| ==> TotalBytes(chunks[..n + 1]) > MAX_PROVIDER_RESPONSE_BYTES
  {
    if chunks == [] then 0
    else
      var n := Admitted(chunks[..|chunks| - 1]);
      if n < |chunks| - 1 then
        assert chunks[..|chunks| - 1][..n] == chunks[..n];
        assert chunks[..|chunks| - 1][..n + 1] == chunks[..n + 1];
        n
      else if TotalBytes(chunks) <= MAX_PROVIDER_RESPONSE_BYTES then
        assert chunks[..|chunks|] == chunks;
        |chunks|
      else
        assert chunks[..|chunks| - 1][..n] == chunks[..n];
        assert chunks[..n + 1] == chunks;
        n
  }

  lemma {:induction false} SplitAppend(left: string, right: string)
    ensures var (lines, rest) := SplitLines(left);
            SplitLines(left + right) == (lines + SplitLines(rest + right).0, SplitLines(rest + right).1)
  {
    SplitsOn(left, right, left + right, SplitLines(left).0, SplitLines(left).1);
  }

  lemma {:induction false} SplitsOn(left: string, right: string, text: string, lines: seq<string>, rest: string)
    requires text == left + right && SplitLines(left) == (lines, rest)
    ensures SplitLines(text) == (lines + SplitLines(rest + right).0, SplitLines(rest + right).1)
    decreases |left|
  {
    var k := LineEnd(left);
    if k == |left| {
      assert lines + SplitLines(text).0 == SplitLines(text).0;
    } else {
      var tail := left[k + 1..];
      SplitFirst(left, k);
      assert lines == [left[..k]] + SplitLines(tail).0 && rest == SplitLines(tail).1;
      SplitsOn(tail, right, tail + right, SplitLines(tail).0, rest);
      FirstLineOn(left, right, text, k);
      Regroup(left[..k], SplitLines(tail).0, SplitLines(rest + right).0);
    }
  }

  lemma {:induction false} FirstLineOn(left: string, right: string, text: string, k: nat)
    requires text == left + right && k < |left| && LineEnd(left) == k
    ensures SplitLines(text) == ([left[..k]] + SplitLines(left[k + 1..] + right).0, SplitLines(left[k + 1..] + right).1)
  {
    assert text[..k] == left[..k] && text[k + 1..] == left[k + 1..] + right;
    LineEndIs(text, k);
    SplitFirst(text, k);
  }

  lemma {:induction false} SplitFirst(text: string, k: nat)
    requires k < |text| && LineEnd(text) == k
    ensures SplitLines(text) == ([text[..k]] + SplitLines(text[k + 1..]).0, SplitLines(text[k + 1..]).1)
  {
  }

  lemma Regroup(line: string, lines: seq<string>, more: seq<string>)
    ensures [line] + (lines + more) == ([line] + lines) + more
  {
  }

  lemma {:induction false} LineEndIs(text: string, k: nat)
    requires k <= |text| && '\n' !in text[..k] && (k < |text| ==> text[k] == '\n')
    ensures LineEnd(text) == k
  {
    var e := LineEnd(text);
    forall i | 0 <= i < k
      ensures text[i] != '\n'
    {
      assert text[..k][i] == text[i];
    }
    forall i | 0 <= i < e
      ensures text[i] != '\n'
    {
      assert text[..e][i] == text[i];
    }
  }

  lemma {:induction false} FeedAppend<P>(s: Scan<P>, left: seq<string>, right: seq<string>, parse: string -> Option<P>)
    ensures FeedLines(s, left + right, parse) == FeedLines(FeedLines(s, left, parse), right, parse)
    decreases |left|
  {
    if left == [] {
      assert left + right == right;
    } else {
      FeedAppend(FeedLine(s, left[0], parse), left[1..], right, parse);
      assert (left + right)[1..] == left[1..] + right;
    }
  }

  lemma {:induction false} EndedStays<P>(s: Scan<P>, lines: seq<string>, parse: string -> Option<P>)
    requires s.ended.Some?
    ensures FeedLines(s, lines, parse) == s
    decreases |lines|
  {
    if lines != [] {
      EndedStays(s, lines[1..], parse);
    }
  }

  /** The scan of everything received so far. */
  function ScanText<P>(text: string, parse: string -> Option<P>): Scan<P> {
    FeedLines(Scan([], [], None), SplitLines(text).0, parse)
  }

  /** Once the text so far has ended the reading, later text changes nothing. */
  lemma {:induction false} PrefixDecides<P>(text: string, more: string, parse: string -> Option<P>)
    requires ScanText(text, parse).ended.Some?
    ensures ScanText(text + more, parse) == ScanText(text, parse)
  {
    ScanMore(text, more, parse);
    EndedStays(ScanText(text, parse), SplitLines(SplitLines(text).1 + more).0, parse);
  }

  /** What the reader must produce for a list of chunks: the cap stops it unless the text ended first. */
  function ReadChunks<P>(chunks: seq<Chunk>, flush: string, parse: string -> Option<P>): Reading<P> {
    var n := Admitted(chunks);
    if n == |chunks| then ReadText(TextOf(chunks) + flush, parse)
    else
      var s := ScanText(TextOf(chunks[..n]), parse);
      Reading(s.events, if s.ended.Some? then s.ended.value else TooLarge)
  }

  /** The inner loop: takes the complete lines out of the buffer until one of them ends the reading. */
  method DrainLines<P>(received: string, pending: seq<string>, soFar: seq<P>, parse: string -> Option<P>)
    returns (buffer: string, scan: Scan<P>)
    ensures scan == FeedLines(Scan(pending, soFar, None), SplitLines(received).0, parse)
    ensures scan.ended.None? ==> buffer == SplitLines(received).1
  {
    buffer := received;
    var dataLines, events := pending, soFar;
    while true
      invariant FeedLines(Scan(dataLines, events, None), SplitLines(buffer).0, parse)
             == FeedLines(Scan(pending, soFar, None), SplitLines(received).0, parse)
      invariant SplitLines(buffer).1 == SplitLines(received).1
      decreases |buffer|
    {
      var newline := LineEnd(buffer);
      if newline == |buffer| {
        return buffer, Scan(dataLines, events, None);
      }
      DrainStep(buffer, newline, Scan(dataLines, events, None), parse);
      ghost var after := FeedLine(Scan(dataLines, events, None), buffer[..newline], parse);
      var line := StripCr(buffer[..newline]);
      buffer := buffer[newline + 1..];
      if line == "" {
        var event := Decode(dataLines, parse);
        dataLines := [];
        if event.Done? || event.Bad? {
          EndedStays(after, SplitLines(buffer).0, parse);
          return buffer, Scan([], events, Some(if event.Done? then DoneMarker else BadEvent));
        }
        if event.Event? { events := events + [event.payload]; }
      } else if DataOf(line).Some? {
        dataLines := dataLines + [DataOf(line).value];
      }
    }
  }

  /**
   * The reader itself. `flush` is what the decoder still returns at the end of the body;
   * a decoder can only flush a replacement character there, never a line feed.
   */
  method ReadServerSentEvents<P>(chunks: seq<Chunk>, flush: string, parse: string -> Option<P>)
    returns (reading: Reading<P>)
    requires '\n' !in flush
    ensures reading == ReadChunks(chunks, flush, parse)
  {
    var buffer := "";
    var size: nat := 0;
    var scan: Scan<P> := Scan([], [], None);
    var i := 0;
    while i < |chunks|
      invariant Received(chunks, i, size, buffer, scan, parse)
    {
      AdmittedStep(chunks, i);
      if size + chunks[i].bytes > MAX_PROVIDER_RESPONSE_BYTES {
        return Reading(scan.events, TooLarge);
      }
      ReceiveMore(TextOf(chunks[..i]), chunks[i].text, buffer, scan, parse);
      size := size + chunks[i].bytes;
      buffer, scan := DrainLines(buffer + chunks[i].text, scan.data, scan.events, parse);
      i := i + 1;
      if scan.ended.Some? {
        ReadingDecided(chunks, i, flush, parse);
        return Reading(scan.events, scan.ended.value);
      }
    }
    assert chunks[..i] == chunks;
    WholeBody(chunks, TextOf(chunks), flush, scan, buffer, parse);
    reading := Flush(scan, buffer + flush, parse);
  }

  /** Between two chunks the reader holds the meaning of the text so far, and its unfinished line. */
  ghost predicate Received<P>(chunks: seq<Chunk>, i: nat, size: nat, buffer: string, scan: Scan<P>, parse: string -> Option<P>) {
    && i <= Admitted(chunks) && size == TotalBytes(chunks[..i])
    && buffer == SplitLines(TextOf(chunks[..i])).1
    && scan == ScanText(TextOf(chunks[..i]), parse) && scan.ended.None?
  }

  /** An unterminated last line counts as one, and so does an event without its blank line. */
  method Flush<P>(scan: Scan<P>, buffer: string, parse: string -> Option<P>) returns (reading: Reading<P>)
    requires scan.ended.None?
    ensures reading == Finish(scan, buffer, parse)
  {
    var dataLines := scan.data;
    if buffer != "" {
      var line := StripCr(buffer);
      if DataOf(line).Some? { dataLines := dataLines + [DataOf(line).value]; }
    }
    match Decode(dataLines, parse) {
      case Event(payload) => reading := Reading(scan.events + [payload], BodyEnd);
      case Bad => reading := Reading(scan.events, BadEvent);
      case _ => reading := Reading(scan.events, BodyEnd);
    }
  }

  /** A body read to its end means what its whole text means. */
  lemma WholeBody<P>(chunks: seq<Chunk>, text: string, flush: string, scan: Scan<P>, buffer: string, parse: string -> Option<P>)
    requires '\n' !in flush && Admitted(chunks) == |chunks| && text == TextOf(chunks)
    requires scan == ScanText(text, parse) && buffer == SplitLines(text).1
    ensures ReadChunks(chunks, flush, parse) == Finish(scan, buffer + flush, parse)
  {
    TailIsRest(text, flush);
  }

  lemma {:induction false} DrainStep<P>(buffer: string, k: nat, s: Scan<P>, parse: string -> Option<P>)
    requires k < |buffer| && LineEnd(buffer) == k
    ensures FeedLines(s, SplitLines(buffer).0, parse)
            == FeedLines(FeedLine(s, buffer[..k], parse), SplitLines(buffer[k + 1..]).0, parse)
    ensures SplitLines(buffer).1 == SplitLines(buffer[k + 1..]).1
  {
    SplitFirst(buffer, k);
    assert SplitLines(buffer).0[1..] == SplitLines(buffer[k + 1..]).0;
  }

  lemma ScanMore<P>(text: string, more: string, parse: string -> Option<P>)
    ensures var rest := SplitLines(text).1;
            && ScanText(text + more, parse) == FeedLines(ScanText(text, parse), SplitLines(rest + more).0, parse)
            && SplitLines(text + more).1 == SplitLines(rest + more).1
  {
    SplitAppend(text, more);
    FeedAppend(Scan([], [], None), SplitLines(text).0, SplitLines(SplitLines(text).1 + more).0, parse);
  }

  /** The same for the reader's own state: what it has buffered stands for what it has read. */
  lemma {:induction false} ReceiveMore<P>(text: string, more: string, buffer: string, scan: Scan<P>, parse: string -> Option<P>)
    requires buffer == SplitLines(text).1 && scan == ScanText(text, parse) && scan.ended.None?
    ensures ScanText(text + more, parse) == FeedLines(Scan(scan.data, scan.events, None), SplitLines(buffer + more).0, parse)
    ensures SplitLines(text + more).1 == SplitLines(buffer + more).1
  {
    ScanMore(text, more, parse);
  }

  lemma TailIsRest(text: string, flush: string)
    requires '\n' !in flush
    ensures SplitLines(text + flush) == (SplitLines(text).0, SplitLines(text).1 + flush)
  {
    var rest := SplitLines(text).1;
    SplitAppend(text, flush);
    LineEndIs(rest + flush, |rest + flush|);
    assert SplitLines(text).0 + [] == SplitLines(text).0;
  }

  lemma {:induction false} TotalBytesMonotone(chunks: seq<Chunk>, i: nat, j: nat)
    requires i <= j <= |chunks|
    ensures TotalBytes(chunks[..i]) <= TotalBytes(chunks[..j])
    decreases j - i
  {
    if i < j {
      TotalBytesMonotone(chunks, i, j - 1);
      assert chunks[..j][..j - 1] == chunks[..j - 1];
    }
  }

  lemma {:induction false} TextGrows(chunks: seq<Chunk>, i: nat, j: nat)
    requires i <= j <= |chunks|
    ensures TextOf(chunks[..i]) <= TextOf(chunks[..j])
    decreases j - i
  {
    if i < j {
      TextGrows(chunks, i, j - 1);
      assert chunks[..j][..j - 1] == chunks[..j - 1];
    }
  }

  lemma {:induction false} AdmittedStep(chunks: seq<Chunk>, i: nat)
    requires i <= Admitted(chunks) && i < |chunks|
    ensures TotalBytes(chunks[..i + 1]) == TotalBytes(chunks[..i]) + chunks[i].bytes
    ensures TextOf(chunks[..i + 1]) == TextOf(chunks[..i]) + chunks[i].text
    ensures i < Admitted(chunks) <==> TotalBytes(chunks[..i + 1]) <= MAX_PROVIDER_RESPONSE_BYTES
  {
    assert chunks[..i + 1][..i] == chunks[..i];
    if i < Admitted(chunks) {
      TotalBytesMonotone(chunks, i + 1, Admitted(chunks));
    }
  }

  lemma {:induction false} ReadingDecided<P>(chunks: seq<Chunk>, i: nat, flush: string, parse: string -> Option<P>)
    requires i <= Admitted(chunks)
    requires ScanText(TextOf(chunks[..i]), parse).ended.Some?
    ensures var s := ScanText(TextOf(chunks[..i]), parse);
            ReadChunks(chunks, flush, parse) == Reading(s.events, s.ended.value)
  {
    var n := Admitted(chunks);
    TextGrows(chunks, i, n);
    if n == |chunks| {
      assert chunks[..n] == chunks;
      StaysDecided(TextOf(chunks[..i]), TextOf(chunks) + flush, parse);
    } else {
      StaysDecided(TextOf(chunks[..i]), TextOf(chunks[..n]), parse);
    }
  }

  lemma {:induction false} StaysDecided<P>(text: string, all: string, parse: string -> Option<P>)
    requires text <= all && ScanText(text, parse).ended.Some?
    ensures ScanText(all, parse) == ScanText(text, parse)
    ensures ReadText(all, parse) == Reading(ScanText(text, parse).events, ScanText(text, parse).ended.value)
  {
    assert all == text + all[|text|..];
    PrefixDecides(text, all[|text|..], parse);
  }

  /**
   * Chunking independence: within the cap, two bodies with the same text read the same,
   * wherever the cuts fall.
   */
  lemma ChunkingIndependence<P>(left: seq<Chunk>, leftFlush: string, right: seq<Chunk>, rightFlush: string,
                                parse: string -> Option<P>)
    requires TextOf(left) + leftFlush == TextOf(right) + rightFlush
    requires TotalBytes(left) <= 1048576 && TotalBytes(right) <= 1048576
    ensures ReadChunks(left, leftFlush, parse) == ReadChunks(right, rightFlush, parse)
  {
    WithinCap(left);
    WithinCap(right);
  }

  /** A body of more than a mebibyte whose text never ends the reading is too large, after the events of what fits. */
  lemma {:induction false} LargeBodyIsRefused<P>(chunks: seq<Chunk>, flush: string, parse: string -> Option<P>)
    requires TotalBytes(chunks) > 1048576 && ScanText(TextOf(chunks), parse).ended.None?
    ensures ReadChunks(chunks, flush, parse).ending == TooLarge
  {
    var n := Admitted(chunks);
    assert chunks[..|chunks|] == chunks;
    TextGrows(chunks, n, |chunks|);
    if ScanText(TextOf(chunks[..n]), parse).ended.Some? { StaysDecided(TextOf(chunks[..n]), TextOf(chunks), parse); }
  }

  lemma WithinCap(chunks: seq<Chunk>)
    requires TotalBytes(chunks) <= MAX_PROVIDER_RESPONSE_BYTES
    ensures Admitted(chunks) == |chunks|
  {
    var n := Admitted(chunks);
    assert chunks[..|chunks|] == chunks;
    if n < |chunks| {
      TotalBytesMonotone(chunks, n + 1, |chunks|);
    }
  }

  // ---------------------------------------------------------------- writing events and reading them back

  /** A text that survives one `data:` line: no line break, no outer white space, not the end marker. */
  predicate Sendable(value: string) {
    value != "" && '\n' !in value && !IsSpace(value[0]) && !IsSpace(value[|value| - 1]) && value != "[DONE]"
  }

  function SendLine(value: string, tail: string): string {
    "data: " + value + "\n\n" + tail
  }

  /** The events one after the other, the end marker, and whatever follows it. */
  function Send(values: seq<string>, tail: string): string {
    if values == [] then SendLine("[DONE]", tail) else SendLine(values[0], Send(values[1..], tail))
  }

  function Payloads<P>(values: seq<string>, parse: string -> Option<P>): seq<P>
    requires forall v | v in values :: parse(v).Some?
  {
    if values == [] then [] else [parse(values[0]).value] + Payloads(values[1..], parse)
  }

  lemma {:induction false} SplitLine(line: string, tail: string)
    requires '\n' !in line
    ensures SplitLines(line + "\n" + tail) == ([line] + SplitLines(tail).0, SplitLines(tail).1)
  {
    var text := line + "\n" + tail;
    assert text[..|line|] == line && text[|line|] == '\n' && text[|line| + 1..] == tail;
    LineEndIs(text, |line|);
  }

  lemma {:induction false} DataLine(value: string)
    requires Sendable(value) || value == "[DONE]"
    ensures StripCr("data: " + value) == "data: " + value
    ensures DataOf("data: " + value) == Some(value)
    ensures Trim(JoinLines([value])) == value
  {
    var line := "data: " + value;
    assert line[|line| - 1] == value[|value| - 1];
    assert line[..5] == "data:";
    assert line[5..] == " " + value;
    assert (" " + value)[1..] == value;
    assert TrimStart(value) == value;
  }

  lemma {:induction false} SentEvent<P>(value: string, tail: string, s: Scan<P>, parse: string -> Option<P>)
    requires s.data == [] && s.ended == None
    requires Sendable(value) || value == "[DONE]"
    ensures var (lines, rest) := SplitLines(SendLine(value, tail));
            && rest == SplitLines(tail).1
            && FeedLines(s, lines, parse)
               == FeedLines(FeedLine(s.(data := [value]), "", parse), SplitLines(tail).0, parse)
  {
    var line := "data: " + value;
    assert SendLine(value, tail) == line + "\n" + ("" + "\n" + tail);
    SplitLine(line, "" + "\n" + tail);
    SplitLine("", tail);
    DataLine(value);
    var after := SplitLines(tail).0;
    assert ([line] + ([""] + after))[1..] == [""] + after;
    assert ([""] + after)[1..] == after;
    assert s.data + [value] == [value];
  }

  lemma SentMarker<P>(tail: string, s: Scan<P>, parse: string -> Option<P>)
    requires s.data == [] && s.ended == None
    ensures FeedLines(s, SplitLines(SendLine("[DONE]", tail)).0, parse) == Scan([], s.events, Some(DoneMarker))
  {
    SentEvent("[DONE]", tail, s, parse);
    DataLine("[DONE]");
    EndedStays(Scan([], s.events, Some(DoneMarker)), SplitLines(tail).0, parse);
  }

  lemma SentPayload<P>(value: string, tail: string, s: Scan<P>, parse: string -> Option<P>)
    requires s.data == [] && s.ended == None
    requires Sendable(value) && parse(value).Some?
    ensures FeedLines(s, SplitLines(SendLine(value, tail)).0, parse)
         == FeedLines(Scan([], s.events + [parse(value).value], None), SplitLines(tail).0, parse)
  {
    SentEvent(value, tail, s, parse);
    DataLine(value);
  }

  /** Round trip: events written one `data:` line each, then `[DONE]`, are read back whatever follows. */
  lemma {:induction false} SentEventsAreRead<P>(values: seq<string>, tail: string, parse: string -> Option<P>)
    requires forall v | v in values :: Sendable(v) && parse(v).Some?
    ensures ReadText(Send(values, tail), parse) == Reading(Payloads(values, parse), DoneMarker)
  {
    SentFrom(values, tail, Scan([], [], None), parse);
  }

  lemma SentStep<P>(values: seq<string>, tail: string, s: Scan<P>, parse: string -> Option<P>)
    requires s.data == [] && s.ended == None && values != [] && Sendable(values[0]) && parse(values[0]).Some?
    ensures FeedLines(s, SplitLines(Send(values, tail)).0, parse)
         == FeedLines(Scan([], s.events + [parse(values[0]).value], None), SplitLines(Send(values[1..], tail)).0, parse)
  {
    SentPayload(values[0], Send(values[1..], tail), s, parse);
  }

  lemma PayloadsCons<P>(values: seq<string>, parse: string -> Option<P>, events: seq<P>)
    requires values != [] && forall v | v in values :: parse(v).Some?
    ensures (events + [parse(values[0]).value]) + Payloads(values[1..], parse) == events + Payloads(values, parse)
  {
  }

  lemma {:induction false} SentFrom<P>(values: seq<string>, tail: string, s: Scan<P>, parse: string -> Option<P>)
    requires s.data == [] && s.ended == None
    requires forall v | v in values :: Sendable(v) && parse(v).Some?
    ensures FeedLines(s, SplitLines(Send(values, tail)).0, parse)
         == Scan([], s.events + Payloads(values, parse), Some(DoneMarker))
    decreases |values|
  {
    if values == [] {
      SentMarker(tail, s, parse);
    } else {
      SentStep(values, tail, s, parse);
      SentFrom(values[1..], tail, Scan([], s.events + [parse(values[0]).value], None), parse);
      PayloadsCons(values, parse, s.events);
    }
  }
}
