/**
 * The forms in which an event stream may be written, and that they all read alike: line feeds with
 * or without a carriage return, `data:` with or without a space, events over several lines, other
 * fields, and a last event without its blank line or line feed.
 */
module SseForms {
  import opened Prelude
  import opened Sse

  /** A line and whether a carriage return stands before its line feed. */
  datatype Line = Line(text: string, cr: bool)

  predicate Plain(text: string) {
    '\n' !in text && (text != "" ==> text[|text| - 1] != '\r')
  }

  /** A line as the reader cuts it out, carriage return included. */
  function RawOf(line: Line): string {
    line.text + if line.cr then "\r" else ""
  }

  /** Lines on the wire, and an unfinished one after them. */
  function Wire(lines: seq<Line>, rest: string): string {
    if lines == [] then rest else RawOf(lines[0]) + "\n" + Wire(lines[1..], rest)
  }

  function Texts(lines: seq<Line>): seq<string> {
    if lines == [] then [] else [lines[0].text] + Texts(lines[1..])
  }

  function Raw(lines: seq<Line>): seq<string> {
    if lines == [] then [] else [RawOf(lines[0])] + Raw(lines[1..])
  }

  lemma {:induction false} WireSplits(lines: seq<Line>, rest: string)
    requires (forall l <- lines :: Plain(l.text)) && '\n' !in rest
    ensures SplitLines(Wire(lines, rest)) == (Raw(lines), rest)
    decreases |lines|
  {
    if lines == [] {
      LineEndIs(rest, |rest|);
    } else {
      WireSplits(lines[1..], rest);
      SplitLine(RawOf(lines[0]), Wire(lines[1..], rest));
    }
  }

  lemma {:induction false} StripsCr(text: string, cr: bool)
    requires Plain(text)
    ensures StripCr(RawOf(Line(text, cr))) == text
  {
    assert (text + "\r")[..|text|] == text;
    assert text + "" == text;
  }

  lemma {:induction false} RawReadsAsText<P>(s: Scan<P>, lines: seq<Line>, parse: string -> Option<P>)
    requires forall l <- lines :: Plain(l.text)
    ensures FeedLines(s, Raw(lines), parse) == FeedLines(s, Texts(lines), parse)
    decreases |lines|
  {
    if lines != [] {
      StripsCr(lines[0].text, lines[0].cr);
      StripsCr(lines[0].text, false);
      assert lines[0].text + "" == lines[0].text;
      RawReadsAsText(FeedLine(s, lines[0].text, parse), lines[1..], parse);
    }
  }

  /** Whichever way each line is ended, and with or without a carriage return at the very end, the text reads the same. */
  lemma {:induction false} LineEndingsDoNotMatter<P>(lines: seq<Line>, rest: string, cr: bool, parse: string -> Option<P>)
    requires (forall l <- lines :: Plain(l.text)) && Plain(rest)
    ensures ReadText(Wire(lines, RawOf(Line(rest, cr))), parse)
            == Finish(FeedLines(Scan([], [], None), Texts(lines), parse), rest, parse)
  {
    WireSplits(lines, RawOf(Line(rest, cr)));
    RawReadsAsText(Scan([], [], None), lines, parse);
    LastCr(FeedLines(Scan([], [], None), Texts(lines), parse), rest, cr, parse);
  }

  lemma {:induction false} LastCr<P>(s: Scan<P>, rest: string, cr: bool, parse: string -> Option<P>)
    requires Plain(rest)
    ensures Finish(s, RawOf(Line(rest, cr)), parse) == Finish(s, rest, parse)
  {
    StripsCr(rest, cr);
    StripsCr(rest, false);
    assert rest + "" == rest;
  }

  // ---------------------------------------------------------------- carriage returns

  /** A carriage return before every line feed. */
  function Crlf(text: string): string {
    if text == "" then "" else CrlfOf(text[0]) + Crlf(text[1..])
  }

  function CrlfOf(c: char): string {
    if c == '\n' then "\r\n" else [c]
  }

  function LinesOf(lines: seq<string>, cr: bool): seq<Line> {
    if lines == [] then [] else [Line(lines[0], cr)] + LinesOf(lines[1..], cr)
  }

  lemma {:induction false} CrlfAppend(left: string, right: string)
    ensures Crlf(left + right) == Crlf(left) + Crlf(right)
    decreases |left|
  {
    if left == "" {
      assert left + right == right;
    } else {
      CrlfAppend(left[1..], right);
      assert (left + right)[1..] == left[1..] + right;
      Assoc(CrlfOf(left[0]), Crlf(left[1..]), Crlf(right));
    }
  }

  lemma {:induction false} CrlfOfLine(line: string)
    requires '\n' !in line
    ensures Crlf(line) == line
  {
    if line != "" {
      assert line[0] in line && forall c <- line[1..] :: c in line;
      CrlfOfLine(line[1..]);
      assert line == [line[0]] + line[1..];
    }
  }

  /** A text is its lines and its rest, put together again. */
  lemma {:induction false} Rejoins(text: string, cr: bool)
    requires '\r' !in text
    ensures Wire(LinesOf(SplitLines(text).0, cr), SplitLines(text).1) == if cr then Crlf(text) else text
    decreases |text|
  {
    var k := LineEnd(text);
    CrlfOfLine(text[..k]);
    if k == |text| {
      assert text[..k] == text;
    } else {
      var tail := text[k + 1..];
      assert forall c <- tail :: c in text;
      Rejoins(tail, cr);
      SplitFirst(text, k);
      FirstOnWire(text[..k], SplitLines(tail).0, SplitLines(text).1, cr);
      CrlfOfLines(text, k);
    }
  }

  lemma {:induction false} FirstOnWire(line: string, lines: seq<string>, rest: string, cr: bool)
    ensures Wire(LinesOf([line] + lines, cr), rest) == line + (if cr then "\r" else "") + "\n" + Wire(LinesOf(lines, cr), rest)
  {
    assert ([line] + lines)[1..] == lines;
    var rest' := LinesOf(lines, cr);
    assert ([Line(line, cr)] + rest')[1..] == rest';
  }

  lemma {:induction false} CrlfOfLines(text: string, k: nat)
    requires k < |text| && text[k] == '\n' && Crlf(text[..k]) == text[..k]
    ensures text == text[..k] + "" + "\n" + text[k + 1..]
    ensures Crlf(text) == text[..k] + "\r" + "\n" + Crlf(text[k + 1..])
  {
    var tail := text[k..];
    assert text == text[..k] + tail;
    CrlfAppend(text[..k], tail);
    assert tail[1..] == text[k + 1..];
  }

  /** The lines of a text without carriage returns are plain. */
  lemma {:induction false} SplitsPlain(text: string)
    requires '\r' !in text
    ensures (forall l <- SplitLines(text).0 :: Plain(l)) && Plain(SplitLines(text).1)
    decreases |text|
  {
    var k := LineEnd(text);
    assert forall c <- text[..k] :: c in text;
    if k == |text| {
      assert text[..k] == text;
    } else {
      assert forall c <- text[k + 1..] :: c in text;
      SplitsPlain(text[k + 1..]);
      SplitFirst(text, k);
    }
  }

  lemma {:induction false} TextsOfLines(lines: seq<string>, cr: bool)
    requires forall l <- lines :: Plain(l)
    ensures Texts(LinesOf(lines, cr)) == lines && forall l <- LinesOf(lines, cr) :: Plain(l.text)
  {
    if lines != [] { TextsOfLines(lines[1..], cr); }
  }

  /** A body with CRLF line ends reads as the same body with LF. */
  lemma {:induction false} CrlfReadsAlike<P>(text: string, parse: string -> Option<P>)
    requires '\r' !in text
    ensures ReadText(Crlf(text), parse) == ReadText(text, parse)
  {
    Rejoins(text, false);
    Rejoins(text, true);
    SplitsPlain(text);
    var (lines, rest) := SplitLines(text);
    TextsOfLines(lines, false);
    TextsOfLines(lines, true);
    LineEndingsDoNotMatter(LinesOf(lines, false), rest, false, parse);
    LineEndingsDoNotMatter(LinesOf(lines, true), rest, false, parse);
    assert rest + "" == rest;
  }

  // ---------------------------------------------------------------- events as they may be written

  /** One line of an event: a data line, with white space after the colon or none, or any other field. */
  datatype Field = Data(pad: string, part: string) | Other(line: string)

  predicate Blank(pad: string) {
    forall c <- pad :: IsSpace(c) && c != '\n'
  }

  /** A part of a payload: a line that does not begin with white space or end with a carriage return. */
  predicate PartOk(part: string) {
    Plain(part) && (part != "" ==> !IsSpace(part[0]))
  }

  predicate FieldOk(field: Field) {
    match field
    case Data(pad, part) => Blank(pad) && (part == "" ==> Plain(pad)) && PartOk(part)
    case Other(line) => line != "" && Plain(line) && !("data:" <= line)
  }

  function FieldLine(field: Field): string {
    match field
    case Data(pad, part) => "data:" + pad + part
    case Other(line) => line
  }

  function FieldLines(fields: seq<Field>): seq<string> {
    if fields == [] then [] else [FieldLine(fields[0])] + FieldLines(fields[1..])
  }

  function Parts(fields: seq<Field>): seq<string> {
    if fields == [] then []
    else (if fields[0].Data? then [fields[0].part] else []) + Parts(fields[1..])
  }

  /** The payload that an event's data lines spell. */
  function Spelled(fields: seq<Field>): string {
    JoinLines(Parts(fields))
  }

  /** Data lines are joined by line feeds. */
  lemma {:induction false} JoinMeaning(lines: seq<string>, line: string)
    ensures JoinLines([line]) == line
    ensures lines != [] ==> JoinLines(lines + [line]) == JoinLines(lines) + ['\n'] + line
    decreases |lines|
  {
    if |lines| == 1 {
      assert (lines + [line])[1..] == [line];
    } else if lines != [] {
      JoinMeaning(lines[1..], line);
      assert (lines + [line])[1..] == lines[1..] + [line];
    }
  }

  /** An event whose payload begins and ends with something else than white space. */
  predicate EventOk(fields: seq<Field>) {
    && (forall f <- fields :: FieldOk(f)) && Parts(fields) != []
    && Spelled(fields) != "" && !IsSpace(Spelled(fields)[0]) && !IsSpace(Spelled(fields)[|Spelled(fields)| - 1])
  }

  lemma {:induction false} TrimsPad(pad: string, part: string)
    requires Blank(pad) && (part != "" ==> !IsSpace(part[0]))
    ensures TrimStart(pad + part) == part
    decreases |pad|
  {
    if pad == "" {
      assert pad + part == part;
    } else {
      assert pad[0] in pad && forall c <- pad[1..] :: c in pad;
      TrimsPad(pad[1..], part);
      assert (pad + part)[1..] == pad[1..] + part;
    }
  }

  lemma {:induction false} FieldDecodes(field: Field)
    requires FieldOk(field)
    ensures Plain(FieldLine(field)) && FieldLine(field) != ""
    ensures DataOf(FieldLine(field)) == if field.Data? then Some(field.part) else None
  {
    var line := FieldLine(field);
    match field {
      case Data(pad, part) =>
        assert line[5..] == pad + part && "data:" <= line;
        TrimsPad(pad, part);
        assert line[|line| - 1] == if part != "" then part[|part| - 1] else if pad != "" then pad[|pad| - 1] else ':';
      case Other(_) =>
    }
  }

  lemma {:induction false} FieldReads<P>(s: Scan<P>, field: Field, parse: string -> Option<P>)
    requires FieldOk(field) && s.ended.None?
    ensures FeedLine(s, FieldLine(field), parse) == s.(data := s.data + Parts([field]))
    ensures Plain(FieldLine(field)) && FieldLine(field) != ""
  {
    FieldDecodes(field);
    assert s.data + [] == s.data && [field][1..] == [];
  }

  lemma {:induction false} FieldsRead<P>(s: Scan<P>, fields: seq<Field>, parse: string -> Option<P>)
    requires (forall f <- fields :: FieldOk(f)) && s.ended.None?
    ensures FeedLines(s, FieldLines(fields), parse) == s.(data := s.data + Parts(fields))
    ensures forall l <- FieldLines(fields) :: Plain(l)
    decreases |fields|
  {
    if fields == [] {
      assert s.data + [] == s.data;
    } else {
      FieldReads(s, fields[0], parse);
      var next := FeedLine(s, FieldLine(fields[0]), parse);
      FieldsRead(next, fields[1..], parse);
      assert Parts([fields[0]]) + Parts(fields[1..]) == Parts(fields) by { assert [fields[0]][1..] == []; }
      Assoc(s.data, Parts([fields[0]]), Parts(fields[1..]));
    }
  }

  lemma {:induction false} Untrimmed(value: string)
    requires value != "" && !IsSpace(value[0]) && !IsSpace(value[|value| - 1])
    ensures Trim(value) == value
  {
  }

  /** A list of events, each ended by a blank line; one without data lines is as good as none. */
  predicate Readable<P>(fields: seq<Field>, parse: string -> Option<P>) {
    && (forall f <- fields :: FieldOk(f))
    && (Parts(fields) != [] ==> EventOk(fields) && Spelled(fields) != "[DONE]" && parse(Spelled(fields)).Some?)
  }

  /** An event that ends the reading: the end marker, or a payload that does not parse. */
  predicate Ends<P>(fields: seq<Field>, parse: string -> Option<P>) {
    EventOk(fields) && (Spelled(fields) == "[DONE]" || parse(Spelled(fields)).None?)
  }

  function DocLines(events: seq<seq<Field>>): seq<string> {
    if events == [] then [] else FieldLines(events[0]) + [""] + DocLines(events[1..])
  }

  function PayloadOf<P>(fields: seq<Field>, parse: string -> Option<P>): seq<P> {
    if Parts(fields) != [] && parse(Spelled(fields)).Some? then [parse(Spelled(fields)).value] else []
  }

  function DocPayloads<P>(events: seq<seq<Field>>, parse: string -> Option<P>): seq<P> {
    if events == [] then [] else PayloadOf(events[0], parse) + DocPayloads(events[1..], parse)
  }

  /** What the data lines of an event decode to. */
  lemma {:induction false} DecodesAs<P>(fields: seq<Field>, parse: string -> Option<P>)
    requires Readable(fields, parse) || Ends(fields, parse)
    ensures Decode(Parts(fields), parse)
            == if Parts(fields) == [] then Nothing
               else if Spelled(fields) == "[DONE]" then Done
               else if parse(Spelled(fields)).Some? then Event(parse(Spelled(fields)).value) else Bad
    ensures Parts(fields) == [] ==> Spelled(fields) == ""
  {
    if Parts(fields) != [] { Untrimmed(Spelled(fields)); }
  }

  lemma {:induction false} EventReads<P>(s: Scan<P>, fields: seq<Field>, parse: string -> Option<P>)
    requires s.data == [] && s.ended.None? && Readable(fields, parse)
    ensures FeedLines(s, FieldLines(fields) + [""], parse) == Scan([], s.events + PayloadOf(fields, parse), None)
    ensures forall l <- FieldLines(fields) :: Plain(l)
  {
    FieldsRead(s, fields, parse);
    FeedAppend(s, FieldLines(fields), [""], parse);
    assert s.data + Parts(fields) == Parts(fields);
    var t := s.(data := Parts(fields));
    assert [""][1..] == [];
    assert FeedLines(t, [""], parse) == FeedLine(t, "", parse);
    DecodesAs(fields, parse);
    assert s.events + [] == s.events;
  }

  lemma {:induction false} DocReads<P>(s: Scan<P>, events: seq<seq<Field>>, parse: string -> Option<P>)
    requires s.data == [] && s.ended.None? && forall e <- events :: Readable(e, parse)
    ensures FeedLines(s, DocLines(events), parse) == Scan([], s.events + DocPayloads(events, parse), None)
    ensures forall l <- DocLines(events) :: Plain(l)
    decreases |events|
  {
    if events == [] {
      assert s.events + [] == s.events;
    } else {
      var payload := PayloadOf(events[0], parse);
      EventReads(s, events[0], parse);
      FeedAppend(s, FieldLines(events[0]) + [""], DocLines(events[1..]), parse);
      DocReads(Scan([], s.events + payload, None), events[1..], parse);
      Assoc(s.events, payload, DocPayloads(events[1..], parse));
    }
  }

  lemma {:induction false} DocThen<P>(events: seq<seq<Field>>, more: seq<string>, parse: string -> Option<P>)
    requires forall e <- events :: Readable(e, parse)
    ensures FeedLines(Scan([], [], None), DocLines(events) + more, parse)
            == FeedLines(Scan([], DocPayloads(events, parse), None), more, parse)
  {
    var start: Scan<P> := Scan([], [], None);
    DocReads(start, events, parse);
    FeedAppend(start, DocLines(events), more, parse);
    assert [] + DocPayloads(events, parse) == DocPayloads(events, parse);
  }

  lemma {:induction false} AllPlain(lines: seq<Line>, texts: seq<string>)
    requires Texts(lines) == texts && forall t <- texts :: Plain(t)
    ensures forall l <- lines :: Plain(l.text)
    decreases |lines|
  {
    if lines != [] {
      assert texts[1..] == Texts(lines[1..]);
      AllPlain(lines[1..], texts[1..]);
    }
  }

  /**
   * Events written in any of these forms and line endings are read back, up to the end marker or a
   * payload that does not parse, each in any form too, and whatever follows.
   */
  lemma {:induction false} WrittenEventsAreRead<P>(lines: seq<Line>, events: seq<seq<Field>>, last: seq<Field>, after: seq<string>,
                                                   rest: string, parse: string -> Option<P>)
    requires (forall e <- events :: Readable(e, parse)) && Ends(last, parse)
    requires Texts(lines) == DocLines(events) + (FieldLines(last) + [""] + after)
    requires (forall t <- after :: Plain(t)) && Plain(rest)
    ensures ReadText(Wire(lines, rest), parse)
            == Reading(DocPayloads(events, parse), if Spelled(last) == "[DONE]" then DoneMarker else BadEvent)
  {
    var start: Scan<P> := Scan([], [], None);
    DocReads(start, events, parse);
    var s: Scan<P> := Scan([], DocPayloads(events, parse), None);
    FieldsRead(s, last, parse);
    AllPlain(lines, Texts(lines));
    LineEndingsDoNotMatter(lines, rest, false, parse);
    DocThen(events, FieldLines(last) + [""] + after, parse);
    LastEnds(s, last, after, parse);
    assert rest + "" == rest;
  }

  lemma {:induction false} LastEnds<P>(s: Scan<P>, last: seq<Field>, after: seq<string>, parse: string -> Option<P>)
    requires s.data == [] && s.ended.None? && Ends(last, parse)
    ensures FeedLines(s, FieldLines(last) + [""] + after, parse)
            == Scan([], s.events, Some(if Spelled(last) == "[DONE]" then DoneMarker else BadEvent))
  {
    FieldsRead(s, last, parse);
    assert s.data + Parts(last) == Parts(last);
    var t := s.(data := Parts(last));
    FeedAppend(s, FieldLines(last), [""] + after, parse);
    assert FieldLines(last) + [""] + after == FieldLines(last) + ([""] + after);
    assert ([""] + after)[0] == "" && ([""] + after)[1..] == after;
    DecodesAs(last, parse);
    EndedStays(FeedLine(t, "", parse), after, parse);
  }

  /** What an event adds when the body ends with it. */
  function AtEnd<P>(events: seq<P>, fields: seq<Field>, parse: string -> Option<P>): Reading<P> {
    if Parts(fields) == [] || Spelled(fields) == "[DONE]" then Reading(events, BodyEnd)
    else if parse(Spelled(fields)).None? then Reading(events, BadEvent)
    else Reading(events + [parse(Spelled(fields)).value], BodyEnd)
  }

  function WithLast(fields: seq<Field>, last: Option<Field>): seq<Field> {
    fields + if last.Some? then [last.value] else []
  }

  /**
   * At the end of the body a last event is read without its blank line, and also when its last
   * line has no line feed; an end marker there ends nothing more.
   */
  lemma {:induction false} UnfinishedEventIsRead<P>(lines: seq<Line>, events: seq<seq<Field>>, fields: seq<Field>, last: Option<Field>,
                                                    cr: bool, parse: string -> Option<P>)
    requires forall e <- events :: Readable(e, parse)
    requires Readable(WithLast(fields, last), parse) || Ends(WithLast(fields, last), parse)
    requires Texts(lines) == DocLines(events) + FieldLines(fields)
    ensures ReadText(Wire(lines, RawOf(Line(if last.Some? then FieldLine(last.value) else "", cr))), parse)
            == AtEnd(DocPayloads(events, parse), WithLast(fields, last), parse)
  {
    var all := WithLast(fields, last);
    assert forall f <- fields :: f in all;
    assert last.Some? ==> last.value in all;
    var start: Scan<P> := Scan([], [], None);
    var s: Scan<P> := Scan([], DocPayloads(events, parse), None);
    DocReads(start, events, parse);
    FieldsRead(s, fields, parse);
    DocThen(events, FieldLines(fields), parse);
    AllPlain(lines, Texts(lines));
    var t := s.(data := Parts(fields));
    assert s.data + Parts(fields) == Parts(fields);
    if last.Some? { FieldReads(t, last.value, parse); }
    LineEndingsDoNotMatter(lines, if last.Some? then FieldLine(last.value) else "", cr, parse);
    LastLine(t, fields, last, parse);
  }

  lemma {:induction false} PartsAppend(fields: seq<Field>, more: seq<Field>)
    ensures Parts(fields + more) == Parts(fields) + Parts(more)
    decreases |fields|
  {
    if fields == [] {
      assert fields + more == more;
    } else {
      PartsAppend(fields[1..], more);
      assert (fields + more)[1..] == fields[1..] + more;
    }
  }

  lemma {:induction false} LastLine<P>(t: Scan<P>, fields: seq<Field>, last: Option<Field>, parse: string -> Option<P>)
    requires t.data == Parts(fields) && t.ended.None? && (last.Some? ==> FieldOk(last.value))
    requires Readable(WithLast(fields, last), parse) || Ends(WithLast(fields, last), parse)
    ensures Finish(t, if last.Some? then FieldLine(last.value) else "", parse) == AtEnd(t.events, WithLast(fields, last), parse)
  {
    var all := WithLast(fields, last);
    LastData(t, fields, last, parse);
    DecodesAs(all, parse);
    FinishesWith(t, if last.Some? then FieldLine(last.value) else "", Parts(all), Decode(Parts(all), parse), parse);
  }

  lemma {:induction false} FinishesWith<P>(t: Scan<P>, rest: string, data: seq<string>, decoded: Decoded<P>, parse: string -> Option<P>)
    requires t.ended.None? && decoded == Decode(data, parse)
    requires data == (if DataOf(StripCr(rest)).Some? then t.data + [DataOf(StripCr(rest)).value] else t.data)
    ensures Finish(t, rest, parse)
            == match decoded
               case Event(payload) => Reading(t.events + [payload], BodyEnd)
               case Bad => Reading(t.events, BadEvent)
               case _ => Reading(t.events, BodyEnd)
  {
  }

  lemma {:induction false} LastData<P>(t: Scan<P>, fields: seq<Field>, last: Option<Field>, parse: string -> Option<P>)
    requires t.data == Parts(fields) && t.ended.None? && (last.Some? ==> FieldOk(last.value))
    ensures var line := StripCr(if last.Some? then FieldLine(last.value) else "");
            (if DataOf(line).Some? then t.data + [DataOf(line).value] else t.data)
            == Parts(WithLast(fields, last))
  {
    PartsAppend(fields, if last.Some? then [last.value] else []);
    assert t.data + [] == t.data;
    if last.Some? {
      FieldReads(t, last.value, parse);
      StripsCr(FieldLine(last.value), false);
      assert FieldLine(last.value) + "" == FieldLine(last.value);
      assert [last.value][1..] == [];
    }
  }
}
