/** Reading a file in pages of code points, addressed by byte offsets. */
module PagedRead {
  import opened Prelude
  import opened Utf8

  const READ_MAX_CHARS := 16_384
  const READ_MAX_BYTES := 65_536

  datatype Page = Page(offset: nat, end: nat, content: string, truncated: bool, nextOffset: Option<nat>)

  datatype Reason = InvalidRequest | OffsetOutOfRange | OffsetNotBoundary | NotUtf8

  function Min(a: int, b: int): int {
    if a <= b then a else b
  }

  // ---------------------------------------------------------------- the cut at the end of a read

  /** The last byte at or before a position that does not continue a character; -1 when there is none. */
  function LeadBefore(bytes: Bytes, i: int): (r: int)
    requires -1 <= i < |bytes|
    ensures -1 <= r <= i
    ensures r >= 0 ==> !Continues(bytes[r])
    ensures forall k | r < k <= i :: Continues(bytes[k])
    decreases i + 1
  {
    if i >= 0 && Continues(bytes[i]) then LeadBefore(bytes, i - 1) else i
  }

  function TrailingStart(bytes: Bytes): (r: Option<nat>)
    ensures r.Some? ==> r.value < |bytes|
  {
    var start := LeadBefore(bytes, |bytes| - 1);
    if start < 0 then None
    else if 0 < Expected(bytes[start]) && |bytes| - start < Expected(bytes[start]) then Some(start)
    else None
  }

  method IncompleteTrailingSequenceStart(bytes: Bytes) returns (r: Option<nat>)
    ensures r == TrailingStart(bytes)
  {
    if |bytes| == 0 { return None; }
    var start: int := |bytes| - 1;
    while start >= 0 && Continues(bytes[start])
      invariant -1 <= start < |bytes|
      invariant LeadBefore(bytes, start) == LeadBefore(bytes, |bytes| - 1)
    {
      start := start - 1;
    }
    if start < 0 { return None; }
    var expected := Expected(bytes[start]);
    return if expected > 0 && |bytes| - start < expected then Some(start) else None;
  }

  function Usable(bytes: Bytes, allowIncomplete: bool): Bytes {
    match TrailingStart(bytes)
    case Some(start) => if allowIncomplete then bytes[..start] else bytes
    case None => bytes
  }

  // ---------------------------------------------------------------- one page

  /**
   * One read of the file; `got` is how many bytes the operating system delivered, at most as many
   * as were asked for.
   */
  function ReadPage(file: Bytes, offset: nat, limit: nat, got: nat): Result<Page, Reason>
    requires offset <= |file| ==> got <= Asked(file, offset)
  {
    if limit < 1 || limit > READ_MAX_CHARS then Err(InvalidRequest)
    else if offset > |file| then Err(OffsetOutOfRange)
    else if offset < |file| && Continues(file[offset]) then Err(OffsetNotBoundary)
    else
      match Decode(Usable(file[offset..offset + got], offset + got < |file|))
      case None => Err(NotUtf8)
      case Some(text) =>
        var content := text[..Min(limit, |text|)];
        var end := offset + |Encode(content)|;
        Ok(Page(offset, end, content, end < |file|, if end < |file| then Some(end) else None))
  }

  function Asked(file: Bytes, offset: nat): nat
    requires offset <= |file|
  {
    Min(READ_MAX_BYTES, |file| - offset)
  }

  /** The buffer is filled, cut back to whole characters, decoded and cut to the limit. */
  method ReadRegisteredFile(file: Bytes, offset: nat, limit: nat, got: nat) returns (r: Result<Page, Reason>)
    requires offset <= |file| ==> got <= Asked(file, offset)
    ensures r == ReadPage(file, offset, limit, got)
  {
    if limit < 1 || limit > READ_MAX_CHARS { return Err(InvalidRequest); }
    if offset > |file| { return Err(OffsetOutOfRange); }
    if offset < |file| {
      var firstByte := file[offset];
      if Continues(firstByte) { return Err(OffsetNotBoundary); }
    }
    var source := file[offset..offset + got];
    var usable := |source|;
    if offset + got < |file| {
      var start := IncompleteTrailingSequenceStart(source);
      if start.Some? { usable := start.value; }
    }
    assert source[..|source|] == source;
    var decoded := Decode(source[..usable]);
    if decoded.None? { return Err(NotUtf8); }
    var content := decoded.value[..Min(limit, |decoded.value|)];
    var end := offset + |Encode(content)|;
    var truncated := end < |file|;
    return Ok(Page(offset, end, content, truncated, if truncated then Some(end) else None));
  }

  // ---------------------------------------------------------------- every page is faithful

  lemma {:induction false} DecodePrefix(b: Bytes, k: nat)
    requires Decode(b).Some? && k <= |Decode(b).value|
    ensures Encode(Decode(b).value[..k]) <= b
  {
    var text := Decode(b).value;
    EncodeDecode(b, text);
    assert text[..k] + text[k..] == text;
    EncodeAppend(text[..k], text[k..]);
  }

  /** Whatever the file holds, a page that is returned is exactly the bytes of its range. */
  lemma {:induction false} PageIsItsRange(file: Bytes, offset: nat, limit: nat, got: nat)
    requires offset <= |file| && got <= Asked(file, offset) && ReadPage(file, offset, limit, got).Ok?
    ensures var page := ReadPage(file, offset, limit, got).value;
            && page.offset == offset && offset <= page.end <= |file|
            && Encode(page.content) == file[offset..page.end] && |page.content| <= limit
            && (page.truncated <==> page.nextOffset == Some(page.end)) && (page.truncated <==> page.end < |file|)
  {
    var source := file[offset..offset + got];
    var bytes := Usable(source, offset + got < |file|);
    var text := Decode(bytes).value;
    var content := text[..Min(limit, |text|)];
    DecodePrefix(bytes, |content|);
    assert Encode(content) <= bytes <= source;
  }

  // ---------------------------------------------------------------- cutting encoded text anywhere

  /** The byte position of the k-th code point. */
  function Boundary(text: string, k: nat): nat
    requires k <= |text|
  {
    if k == 0 then 0 else Boundary(text, k - 1) + |EncodeChar(text[k - 1])|
  }

  lemma {:induction false} BoundaryIs(text: string, k: nat)
    requires k <= |text|
    ensures Boundary(text, k) == |Encode(text[..k])|
  {
    if k > 0 {
      BoundaryIs(text, k - 1);
      assert text[..k] == text[..k - 1] + [text[k - 1]];
      EncodeAppend(text[..k - 1], [text[k - 1]]);
      OneChar(text[k - 1]);
    }
  }

  /** How many whole code points fit in a number of bytes. */
  function Fitting(text: string, size: nat): (k: nat)
    ensures k <= |text|
  {
    if text == "" || size < |EncodeChar(text[0])| then 0 else 1 + Fitting(text[1..], size - |EncodeChar(text[0])|)
  }

  lemma {:induction false} FittingFits(text: string, size: nat)
    requires size <= |Encode(text)|
    ensures |Encode(text[..Fitting(text, size)])| <= size
    ensures size < |Encode(text)| ==>
              && Fitting(text, size) < |text|
              && size < |Encode(text[..Fitting(text, size)])| + |EncodeChar(text[Fitting(text, size)])|
    ensures size == |Encode(text)| ==> Fitting(text, size) == |text|
  {
    if text != "" && size >= |EncodeChar(text[0])| {
      var rest, left := text[1..], size - |EncodeChar(text[0])|;
      FittingFits(rest, left);
      var k := Fitting(rest, left);
      assert text[..k + 1][1..] == rest[..k];
    }
  }

  /**
   * Bytes of a valid text cut anywhere: the trailing sequence found is exactly the cut character,
   * and nothing is found where the cut falls between characters.
   */
  lemma {:induction false} CutIsFound(text: string, c: char, part: nat)
    requires part < |EncodeChar(c)|
    ensures TrailingStart(Encode(text) + EncodeChar(c)[..part]) == if part == 0 then None else Some(|Encode(text)|)
  {
    var bytes := Encode(text) + EncodeChar(c)[..part];
    var last := |bytes| - 1;
    CharShape(c);
    if part > 0 {
      assert bytes[|Encode(text)|] == EncodeChar(c)[0];
      LeadIs(bytes, last, |Encode(text)|);
    } else if text != "" {
      var n := |text| - 1;
      assert text == text[..n] + [text[n]];
      EncodeAppend(text[..n], [text[n]]);
      OneChar(text[n]);
      CharShape(text[n]);
      LeadIs(bytes, last, |Encode(text[..n])|);
    }
  }

  lemma OneChar(c: char)
    ensures Encode([c]) == EncodeChar(c)
  {
    assert [c][1..] == "";
  }

  lemma {:induction false} LeadIs(bytes: Bytes, i: int, lead: nat)
    requires lead <= i < |bytes| && !Continues(bytes[lead]) && forall k | lead < k <= i :: Continues(bytes[k])
    ensures LeadBefore(bytes, i) == lead
    decreases i
  {
    if lead < i { LeadIs(bytes, i - 1, lead); }
  }

  // ---------------------------------------------------------------- pages of a valid file

  lemma {:induction false} RestEncoded(text: string, k: nat)
    requires k <= |text|
    ensures Boundary(text, k) <= |Encode(text)| && Encode(text)[Boundary(text, k)..] == Encode(text[k..])
    ensures k < |text| <==> Boundary(text, k) < |Encode(text)|
  {
    BoundaryIs(text, k);
    assert text == text[..k] + text[k..];
    EncodeAppend(text[..k], text[k..]);
    EncodeLength(text[k..]);
  }

  lemma {:induction false} BoundaryAdds(text: string, k: nat, n: nat)
    requires k + n <= |text|
    ensures Boundary(text, k + n) == Boundary(text, k) + |Encode(text[k..k + n])|
  {
    BoundaryIs(text, k);
    BoundaryIs(text, k + n);
    assert text[..k + n] == text[..k] + text[k..k + n];
    EncodeAppend(text[..k], text[k..k + n]);
  }

  /** The bytes that fit are the whole characters that fit and a part of the next. */
  lemma {:induction false} CutSplits(rest: string, got: nat)
    requires got < |Encode(rest)|
    ensures var j := Fitting(rest, got);
            j < |rest| && 0 <= got - |Encode(rest[..j])| < |EncodeChar(rest[j])|
            && Encode(rest)[..got] == Encode(rest[..j]) + EncodeChar(rest[j])[..got - |Encode(rest[..j])|]
  {
    var j := Fitting(rest, got);
    FittingFits(rest, got);
    assert rest == rest[..j] + rest[j..];
    EncodeAppend(rest[..j], rest[j..]);
    assert rest[j..][0] == rest[j];
  }

  /** Reading some bytes of a text decodes to exactly the whole characters among them. */
  lemma {:induction false} PrefixDecodes(rest: string, got: nat)
    requires got <= |Encode(rest)|
    ensures Decode(Usable(Encode(rest)[..got], got < |Encode(rest)|)) == Some(rest[..Fitting(rest, got)])
  {
    var j := Fitting(rest, got);
    FittingFits(rest, got);
    if got == |Encode(rest)| {
      assert rest[..j] == rest && Encode(rest)[..got] == Encode(rest);
    } else {
      CutSplits(rest, got);
      UsableCut(Encode(rest)[..got], rest[..j], rest[j], got - |Encode(rest[..j])|);
    }
    DecodeEncode(rest[..j]);
  }

  lemma {:induction false} UsableCut(bytes: Bytes, text: string, c: char, part: nat)
    requires part < |EncodeChar(c)| && bytes == Encode(text) + EncodeChar(c)[..part]
    ensures Usable(bytes, true) == Encode(text)
  {
    CutIsFound(text, c, part);
  }

  /** The page on which a read of the text from its k-th code point ends. */
  function NextPage(text: string, k: nat, n: nat): Page
    requires k + n <= |text|
  {
    var end := Boundary(text, k + n);
    Page(Boundary(text, k), end, text[k..k + n], k + n < |text|, if k + n < |text| then Some(end) else None)
  }

  /**
   * A page of a valid file asked for at a code point boundary: it starts there, ends at a
   * boundary, and holds the next code points, as many as were asked for and delivered whole.
   */
  lemma {:induction false} PageIsNext(text: string, file: Bytes, k: nat, offset: nat, limit: nat, got: nat, n: nat)
    requires k <= |text| && 1 <= limit <= READ_MAX_CHARS && file == Encode(text)
    requires offset == Boundary(text, k) <= |file| && got <= Asked(file, offset)
    requires n == Min(limit, Fitting(text[k..], got)) && k + n <= |text|
    ensures ReadPage(file, offset, limit, got) == Ok(NextPage(text, k, n))
  {
    var fit, bytes := Fitting(text[k..], got), file[offset..];
    var whole, page := text[k..k + fit], NextPage(text, k, n);
    Fetched(text, file, k, offset, got, bytes, whole);
    PageShape(text, file, k, offset, fit, limit, whole[..n], page);
    PageFrom(file, offset, bytes, limit, got, whole, page);
  }

  predicate Shaped(file: Bytes, offset: nat, content: string, page: Page) {
    && page.content == content && page.offset == offset && page.end == offset + |Encode(content)|
    && page.truncated == (page.end < |file|) && page.nextOffset == if page.truncated then Some(page.end) else None
  }

  lemma {:induction false} PageShape(text: string, file: Bytes, k: nat, offset: nat, fit: nat, limit: nat, content: string, page: Page)
    requires k + fit <= |text| && file == Encode(text) && offset == Boundary(text, k)
    requires content == text[k..k + fit][..Min(limit, fit)] && page == NextPage(text, k, Min(limit, fit))
    ensures Shaped(file, offset, content, page)
  {
    var n := Min(limit, fit);
    assert content == text[k..k + n];
    EndOfPage(text, k, n);
  }

  /** The first `got` of these bytes decode to a text. */
  predicate Fetches(bytes: Bytes, got: nat, text: string) {
    && got <= |bytes| && (bytes != [] ==> !Continues(bytes[0]))
    && Decode(Usable(bytes[..got], got < |bytes|)) == Some(text)
  }

  lemma {:induction false} Fetched(text: string, file: Bytes, k: nat, offset: nat, got: nat, bytes: Bytes, whole: string)
    requires k <= |text| && file == Encode(text) && offset == Boundary(text, k) <= |file| && got <= Asked(file, offset)
    requires bytes == file[offset..] && whole == text[k..k + Fitting(text[k..], got)]
    ensures Fetches(bytes, got, whole)
  {
    RestEncoded(text, k);
    if k < |text| { StartsCharacter(text[k..]); }
    PrefixDecodes(text[k..], got);
    assert text[k..][..Fitting(text[k..], got)] == whole;
  }

  lemma {:induction false} EndOfPage(text: string, k: nat, n: nat)
    requires k + n <= |text|
    ensures Boundary(text, k) + |Encode(text[k..k + n])| == Boundary(text, k + n) <= |Encode(text)|
    ensures Boundary(text, k + n) < |Encode(text)| <==> k + n < |text|
  {
    BoundaryAdds(text, k, n);
    RestEncoded(text, k + n);
  }

  /** The page made from decoded text. */
  lemma {:induction false} PageFrom(file: Bytes, offset: nat, bytes: Bytes, limit: nat, got: nat, text: string, page: Page)
    requires offset <= |file| && bytes == file[offset..] && got <= Asked(file, offset) && 1 <= limit <= READ_MAX_CHARS
    requires Fetches(bytes, got, text)
    requires Shaped(file, offset, text[..Min(limit, |text|)], page)
    ensures ReadPage(file, offset, limit, got) == Ok(page)
  {
    SliceFrom(file, offset, got);
  }

  lemma SliceFrom(file: Bytes, offset: nat, got: nat)
    requires offset + got <= |file|
    ensures file[offset..offset + got] == file[offset..][..got]
  {
  }

  /** A read that asked for 65536 bytes and got them cannot run short of 16384 code points. */
  lemma {:induction false} FullReadSuffices(text: string, k: nat, limit: nat)
    requires k <= |text| && 1 <= limit <= READ_MAX_CHARS && Boundary(text, k) <= |Encode(text)|
    ensures Min(limit, Fitting(text[k..], Asked(Encode(text), Boundary(text, k)))) == Min(limit, |text| - k)
  {
    var rest, size := text[k..], Asked(Encode(text), Boundary(text, k));
    RestEncoded(text, k);
    var fit := Fitting(rest, size);
    FittingFits(rest, size);
    if fit < |rest| {
      EncodeLength(rest[..fit]);
      assert size == READ_MAX_BYTES;
    }
  }

  /** A page moves on exactly when at least the next character was delivered whole; a shorter read stalls. */
  lemma {:induction false} PageMovesOn(text: string, file: Bytes, k: nat, offset: nat, limit: nat, got: nat)
    requires k < |text| && 1 <= limit <= READ_MAX_CHARS && file == Encode(text)
    requires offset == Boundary(text, k) <= |file| && got <= Asked(file, offset)
    ensures var r := ReadPage(file, offset, limit, got);
            && r.Ok?
            && (got >= |EncodeChar(text[k])| <==> r.value.end > offset)
            && (got < |EncodeChar(text[k])| ==> r.value.nextOffset == Some(offset))
  {
    var n := Min(limit, Fitting(text[k..], got));
    PageIsNext(text, file, k, offset, limit, got, n);
    assert n >= 1 <==> got >= |EncodeChar(text[k])| by { assert text[k..][0] == text[k]; }
    BoundaryRises(text, k, n);
  }

  lemma {:induction false} BoundaryRises(text: string, k: nat, n: nat)
    requires k + n <= |text|
    ensures Boundary(text, k + n) >= Boundary(text, k) + n
  {
    if n > 0 { BoundaryRises(text, k, n - 1); }
  }

  // ---------------------------------------------------------------- following next_offset

  /** What a reader asks for, and how many bytes the operating system would deliver at most. */
  datatype Request = Request(limit: nat, got: nat)

  /** A reader that follows next_offset until there is none, or until it stops asking. */
  function ReadOn(file: Bytes, offset: nat, requests: seq<Request>): Result<seq<Page>, Reason>
    requires offset <= |file|
    decreases |requests|
  {
    if requests == [] then Ok([])
    else
      var got := Min(requests[0].got, Asked(file, offset));
      var page :- ReadPage(file, offset, requests[0].limit, got);
      PageIsItsRange(file, offset, requests[0].limit, got);
      if page.nextOffset.None? then Ok([page])
      else
        var rest :- ReadOn(file, page.nextOffset.value, requests[1..]);
        Ok([page] + rest)
  }

  lemma {:induction false} ReadOnStep(file: Bytes, offset: nat, requests: seq<Request>, page: Page, rest: seq<Page>)
    requires offset <= |file| && requests != []
    requires ReadPage(file, offset, requests[0].limit, Min(requests[0].got, Asked(file, offset))) == Ok(page)
    requires page.nextOffset.Some? ==>
               page.nextOffset.value <= |file| && ReadOn(file, page.nextOffset.value, requests[1..]) == Ok(rest)
    ensures ReadOn(file, offset, requests) == Ok(if page.nextOffset.Some? then [page] + rest else [page])
  {
  }

  predicate Fair(requests: seq<Request>) {
    forall r <- requests :: 1 <= r.limit <= READ_MAX_CHARS
  }

  /** A piece of a text: some code points from one of them on. */
  datatype Span = Span(from: nat, size: nat)

  /** The simple form: cutting `length` code points into pieces of given sizes. */
  function Spans(length: nat, k: nat, counts: seq<nat>): (spans: seq<Span>)
    requires k <= length
    ensures forall s <- spans :: s.from + s.size <= length
    ensures counts != [] ==> spans != []
    decreases |counts|
  {
    if counts == [] then []
    else
      var n := Min(counts[0], length - k);
      if k + n < length then [Span(k, n)] + Spans(length, k + n, counts[1..]) else [Span(k, n)]
  }

  /** The pages that show these pieces. */
  function PagesOf(text: string, spans: seq<Span>): (pages: seq<Page>)
    requires forall s <- spans :: s.from + s.size <= |text|
    ensures |pages| == |spans|
  {
    if spans == [] then []
    else
      assert spans[0] in spans;
      [NextPage(text, spans[0].from, spans[0].size)] + PagesOf(text, spans[1..])
  }

  lemma {:induction false} PagesOfCons(text: string, k: nat, n: nat, rest: seq<Span>)
    requires k + n <= |text| && forall s <- rest :: s.from + s.size <= |text|
    ensures PagesOf(text, [Span(k, n)] + rest) == [NextPage(text, k, n)] + PagesOf(text, rest)
  {
    assert ([Span(k, n)] + rest)[1..] == rest;
  }

  lemma {:induction false} PagesOfOne(text: string, k: nat, n: nat)
    requires k + n <= |text|
    ensures PagesOf(text, [Span(k, n)]) == [NextPage(text, k, n)]
  {
    assert [Span(k, n)][1..] == [];
  }

  lemma {:induction false} SpansStep(length: nat, k: nat, counts: seq<nat>, n: nat)
    requires k + n <= length && counts != [] && n == Min(counts[0], length - k)
    ensures Spans(length, k, counts) == if k + n < length then [Span(k, n)] + Spans(length, k + n, counts[1..]) else [Span(k, n)]
  {
  }

  lemma {:induction false} SpansPages(text: string, k: nat, counts: seq<nat>, n: nat, page: Page)
    requires k + n <= |text| && counts != [] && n == Min(counts[0], |text| - k) && page == NextPage(text, k, n)
    ensures PagesOf(text, Spans(|text|, k, counts))
            == if k + n < |text| then [page] + PagesOf(text, Spans(|text|, k + n, counts[1..])) else [page]
  {
    SpansStep(|text|, k, counts, n);
    if k + n < |text| { PagesOfCons(text, k, n, Spans(|text|, k + n, counts[1..])); } else { PagesOfOne(text, k, n); }
  }

  /** One more page read is one more piece cut. */
  lemma {:induction false} PieceStep(text: string, file: Bytes, k: nat, offset: nat, requests: seq<Request>, n: nat, counts: seq<nat>,
                  page: Page, rest: seq<Page>)
    requires k + n <= |text| && offset <= |file| && requests != [] && counts != []
    requires n == Min(counts[0], |text| - k) && page == NextPage(text, k, n)
    requires ReadPage(file, offset, requests[0].limit, Min(requests[0].got, Asked(file, offset))) == Ok(page)
    requires k + n < |text| ==>
               && page.end <= |file| && ReadOn(file, page.end, requests[1..]) == Ok(rest)
               && rest == PagesOf(text, Spans(|text|, k + n, counts[1..]))
    ensures ReadOn(file, offset, requests) == Ok(PagesOf(text, Spans(|text|, k, counts)))
  {
    SpansPages(text, k, counts, n, page);
    ReadOnStep(file, offset, requests, page, rest);
  }

  /**
   * Reading bytes page by page is cutting the text into pieces, however short the reads fall: of
   * as many code points as asked for, or as were delivered whole.
   */
  lemma {:induction false} PagesArePieces(text: string, file: Bytes, k: nat, offset: nat, requests: seq<Request>)
    returns (counts: seq<nat>)
    requires k <= |text| && file == Encode(text) && offset == Boundary(text, k) <= |file| && Fair(requests)
    ensures ReadOn(file, offset, requests) == Ok(PagesOf(text, Spans(|text|, k, counts)))
    ensures |counts| == |requests| && forall i | 0 <= i < |counts| :: counts[i] <= requests[i].limit
    decreases |requests|
  {
    if requests == [] {
      counts := [];
    } else {
      var n, page := ShortPage(text, file, k, offset, requests);
      var rest := PagesArePieces(text, file, k + n, page.end, requests[1..]);
      counts := [n] + rest;
      PieceStep(text, file, k, offset, requests, n, counts, page, PagesOf(text, Spans(|text|, k + n, rest)));
    }
  }

  lemma {:induction false} ShortPage(text: string, file: Bytes, k: nat, offset: nat, requests: seq<Request>)
    returns (n: nat, page: Page)
    requires k <= |text| && file == Encode(text) && offset == Boundary(text, k) <= |file| && Fair(requests) && requests != []
    ensures n <= requests[0].limit && k + n <= |text| && page == NextPage(text, k, n) && page.end == Boundary(text, k + n) <= |file|
    ensures ReadPage(file, offset, requests[0].limit, Min(requests[0].got, Asked(file, offset))) == Ok(page)
  {
    var size := Min(requests[0].got, Asked(file, offset));
    n := Min(requests[0].limit, Fitting(text[k..], size));
    assert requests[0] in requests;
    page := NextPage(text, k, n);
    PageIsNext(text, file, k, offset, requests[0].limit, size, n);
    EndsWithin(text, file, k, n, page);
  }

  lemma {:induction false} EndsWithin(text: string, file: Bytes, k: nat, n: nat, page: Page)
    requires k + n <= |text| && file == Encode(text) && page == NextPage(text, k, n)
    ensures page.end == Boundary(text, k + n) <= |file|
  {
    RestEncoded(text, k + n);
  }

  predicate FullReads(requests: seq<Request>) {
    forall r <- requests :: r.got >= READ_MAX_BYTES
  }

  function Limits(requests: seq<Request>): (limits: seq<nat>)
    ensures |limits| == |requests| && forall i | 0 <= i < |limits| :: limits[i] == requests[i].limit
  {
    if requests == [] then [] else [requests[0].limit] + Limits(requests[1..])
  }

  /** A page got by a read that does not fall short holds exactly min(limit, remaining) code points. */
  lemma {:induction false} FullPage(text: string, file: Bytes, k: nat, offset: nat, requests: seq<Request>)
    returns (n: nat, page: Page)
    requires k <= |text| && file == Encode(text) && offset == Boundary(text, k) <= |file|
    requires Fair(requests) && FullReads(requests) && requests != []
    ensures n == Min(requests[0].limit, |text| - k) && page == NextPage(text, k, n) && page.end == Boundary(text, k + n) <= |file|
    ensures ReadPage(file, offset, requests[0].limit, Min(requests[0].got, Asked(file, offset))) == Ok(page)
  {
    assert requests[0] in requests;
    n := Min(requests[0].limit, |text| - k);
    FullReadSuffices(text, k, requests[0].limit);
    page := NextPage(text, k, n);
    PageIsNext(text, file, k, offset, requests[0].limit, Asked(file, offset), n);
    EndsWithin(text, file, k, n, page);
  }

  /** Where no read falls short, every page holds exactly min(limit, remaining) code points. */
  lemma {:induction false} FullPagesAreExact(text: string, file: Bytes, k: nat, offset: nat, requests: seq<Request>, limits: seq<nat>)
    requires k <= |text| && file == Encode(text) && offset == Boundary(text, k) <= |file|
    requires Fair(requests) && FullReads(requests) && limits == Limits(requests)
    ensures ReadOn(file, offset, requests) == Ok(PagesOf(text, Spans(|text|, k, limits)))
    decreases |requests|
  {
    if requests != [] {
      var n, page := FullPage(text, file, k, offset, requests);
      var rest := limits[1..];
      assert rest == Limits(requests[1..]);
      FullPagesAreExact(text, file, k + n, page.end, requests[1..], rest);
      PieceStep(text, file, k, offset, requests, n, limits, page, PagesOf(text, Spans(|text|, k + n, rest)));
    }
  }

  // ---------------------------------------------------------------- what the pieces add up to

  function Contents(pages: seq<Page>): string {
    if pages == [] then "" else pages[0].content + Contents(pages[1..])
  }

  /** Where the reader has got to. */
  function Reached(length: nat, k: nat, counts: seq<nat>): (end: nat)
    requires k <= length
    ensures k <= end <= length
    decreases |counts|
  {
    if counts == [] || k == length then k else Reached(length, k + Min(counts[0], length - k), counts[1..])
  }

  /** Pieces that follow on from one another. */
  predicate Adjoin(spans: seq<Span>, from: nat, end: nat) {
    if spans == [] then from == end
    else spans[0].from == from && Adjoin(spans[1..], from + spans[0].size, end)
  }

  /** The pieces follow on, from where reading starts to where it stops. */
  lemma {:induction false} SpansAdjoin(length: nat, k: nat, counts: seq<nat>)
    requires k <= length
    ensures Adjoin(Spans(length, k, counts), k, Reached(length, k, counts))
    ensures counts != [] ==>
              var last := Spans(length, k, counts)[|Spans(length, k, counts)| - 1];
              last.from + last.size == Reached(length, k, counts)
    decreases |counts|
  {
    if counts != [] {
      var n := Min(counts[0], length - k);
      var spans := Spans(length, k, counts);
      if k + n < length {
        SpansAdjoin(length, k + n, counts[1..]);
        assert spans[1..] == Spans(length, k + n, counts[1..]);
      } else {
        assert spans[1..] == [];
      }
    }
  }

  lemma Joins(text: string, k: nat, m: nat, end: nat)
    requires k <= m <= end <= |text|
    ensures text[k..m] + text[m..end] == text[k..end]
  {
  }

  lemma {:induction false} AdjoinRises(spans: seq<Span>, from: nat, end: nat)
    requires Adjoin(spans, from, end)
    ensures from <= end
    decreases |spans|
  {
    if spans != [] { AdjoinRises(spans[1..], from + spans[0].size, end); }
  }

  /** Pages of adjoining pieces join without gap or overlap. */
  lemma {:induction false} PiecesJoin(text: string, spans: seq<Span>, from: nat, end: nat, pages: seq<Page>)
    requires (forall s <- spans :: s.from + s.size <= |text|) && Adjoin(spans, from, end) && end <= |text|
    requires pages == PagesOf(text, spans)
    ensures from <= end && Contents(pages) == text[from..end]
    decreases |spans|
  {
    AdjoinRises(spans, from, end);
    if spans != [] {
      var m := from + spans[0].size;
      AdjoinRises(spans[1..], m, end);
      assert pages[1..] == PagesOf(text, spans[1..]);
      PiecesJoin(text, spans[1..], m, end, pages[1..]);
      Joins(text, from, m, end);
    }
  }

  lemma {:induction false} LastPage(text: string, spans: seq<Span>)
    requires spans != [] && forall s <- spans :: s.from + s.size <= |text|
    ensures var last, pages := spans[|spans| - 1], PagesOf(text, spans);
            pages[|pages| - 1].nextOffset.None? <==> last.from + last.size == |text|
    decreases |spans|
  {
    assert spans[|spans| - 1] in spans;
    if |spans| > 1 { LastPage(text, spans[1..]); }
  }

  predicate Positive(counts: seq<nat>) {
    forall i | 0 <= i < |counts| :: counts[i] >= 1
  }

  /** One piece per code point is enough to reach the end. */
  lemma {:induction false} PiecesReachTheEnd(length: nat, k: nat, counts: seq<nat>)
    requires k <= length && |counts| >= length - k && Positive(counts)
    ensures Reached(length, k, counts) == length
    decreases |counts|
  {
    if counts != [] && k < length { PiecesReachTheEnd(length, k + Min(counts[0], length - k), counts[1..]); }
  }

  /**
   * Paged reading loses nothing, repeats nothing and never splits a character: following
   * next_offset from 0 joins to the start of the file's text, and to all of it exactly when the
   * last page names no next offset, whatever the limits and however short the reads.
   */
  lemma {:induction false} PagesConcatenate(text: string, requests: seq<Request>)
    requires Fair(requests) && requests != []
    ensures var r := ReadOn(Encode(text), 0, requests);
            && r.Ok? && r.value != [] && Contents(r.value) <= text
            && (r.value[|r.value| - 1].nextOffset.None? <==> Contents(r.value) == text)
  {
    var counts := PagesArePieces(text, Encode(text), 0, 0, requests);
    var spans, end := Spans(|text|, 0, counts), Reached(|text|, 0, counts);
    SpansAdjoin(|text|, 0, counts);
    PiecesJoin(text, spans, 0, end, PagesOf(text, spans));
    LastPage(text, spans);
    assert text[0..end] <= text && (end == |text| <==> text[0..end] == text);
  }

  /** Without short reads the reader ends after at most one request per code point. */
  lemma {:induction false} PagedReadingTerminates(text: string, requests: seq<Request>)
    requires Fair(requests) && FullReads(requests) && |requests| >= |text|
    ensures var r := ReadOn(Encode(text), 0, requests);
            r == Ok(PagesOf(text, Spans(|text|, 0, Limits(requests)))) && Contents(r.value) == text
  {
    var limits := Limits(requests);
    var spans := Spans(|text|, 0, limits);
    FullPagesAreExact(text, Encode(text), 0, 0, requests, limits);
    assert forall i | 0 <= i < |requests| :: requests[i] in requests;
    PiecesReachTheEnd(|text|, 0, limits);
    SpansAdjoin(|text|, 0, limits);
    PiecesJoin(text, spans, 0, |text|, PagesOf(text, spans));
    assert text[0..|text|] == text;
  }
}
