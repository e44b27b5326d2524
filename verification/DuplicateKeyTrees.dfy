/**
 * JSON values as trees of member lists with every way of writing them down, and the theorem that
 * the duplicate-name scanner reads back exactly such texts and finds exactly their duplicates.
 */
module DuplicateKeyTrees {
  import opened Prelude
  import opened DuplicateKeys

  /** How one code unit of a string literal is written. */
  datatype Piece = Plain(unit: Unit) | Short(letter: Unit) | Hex(digits: Text)

  /** A value and its layout: `gap` is the white space inside empty brackets. */
  datatype Node =
    | Scalar(lexeme: Text)
    | Quoted(pieces: seq<Piece>)
    | List(gap: Text, items: Items)
    | Object(gap: Text, members: Members)

  datatype Items = NoItems | Items(before: Text, item: Node, after: Text, rest: Items)

  datatype Members =
    | NoMembers
    | Members(lead: Text, name: seq<Piece>, mid: Text, before: Text, value: Node, after: Text, rest: Members)

  // ---------------------------------------------------------------- which trees are meant

  predicate Blank(s: Text) {
    forall u <- s :: Space(u)
  }

  predicate PieceOk(p: Piece) {
    match p
    case Plain(unit) => 0x20 <= unit && unit != '"' as int && unit != '\\' as int
    case Short(letter) => letter in ShortEscapes
    case Hex(digits) => HexDigits(digits)
  }

  predicate Literal(pieces: seq<Piece>) {
    forall p <- pieces :: PieceOk(p)
  }

  /** A number or a literal name, or anything else the scanner takes for one. */
  predicate Lexeme(s: Text) {
    && s != [] && s[0] != '{' as int && s[0] != '[' as int && s[0] != '"' as int
    && forall u <- s :: !EndsScalar(u)
  }

  predicate WellFormed(node: Node) {
    match node
    case Scalar(lexeme) => Lexeme(lexeme)
    case Quoted(pieces) => Literal(pieces)
    case List(gap, items) => Blank(gap) && ItemsWellFormed(items)
    case Object(gap, members) => Blank(gap) && MembersWellFormed(members)
  }

  predicate ItemsWellFormed(items: Items) {
    match items
    case NoItems => true
    case Items(before, item, after, rest) => Blank(before) && WellFormed(item) && Blank(after) && ItemsWellFormed(rest)
  }

  predicate MembersWellFormed(members: Members) {
    match members
    case NoMembers => true
    case Members(lead, name, mid, before, value, after, rest) =>
      && Blank(lead) && Literal(name) && Blank(mid) && Blank(before) && WellFormed(value) && Blank(after)
      && MembersWellFormed(rest)
  }

  // ---------------------------------------------------------------- writing trees down

  function PieceText(p: Piece): Text {
    match p
    case Plain(unit) => [unit]
    case Short(letter) => ['\\' as int, letter]
    case Hex(digits) => ['\\' as int, 'u' as int] + digits
  }

  function PieceUnit(p: Piece): Unit
    requires PieceOk(p)
  {
    match p
    case Plain(unit) => unit
    case Short(letter) => ShortEscapes[letter]
    case Hex(digits) => HexUnit(digits)
  }

  function Body(pieces: seq<Piece>): Text {
    if pieces == [] then [] else PieceText(pieces[0]) + Body(pieces[1..])
  }

  /** The name a literal stands for once its escapes are undone. */
  function NameOf(pieces: seq<Piece>): (name: Text)
    requires Literal(pieces)
    ensures |name| == |pieces|
  {
    seq(|pieces|, i requires 0 <= i < |pieces| => assert pieces[i] in pieces; PieceUnit(pieces[i]))
  }

  function LiteralText(pieces: seq<Piece>): Text {
    ['"' as int] + (Body(pieces) + ['"' as int])
  }

  function NodeText(node: Node): Text {
    match node
    case Scalar(lexeme) => lexeme
    case Quoted(pieces) => LiteralText(pieces)
    case List(gap, items) => ['[' as int] + if items.NoItems? then gap + [']' as int] else ItemsText(items)
    case Object(gap, members) => ['{' as int] + if members.NoMembers? then gap + ['}' as int] else MembersText(members)
  }

  function ItemsText(items: Items): Text
    requires items.Items?
  {
    (items.before + NodeText(items.item))
    + (items.after + if items.rest.NoItems? then [']' as int] else [',' as int] + ItemsText(items.rest))
  }

  function MemberText(members: Members): Text
    requires members.Members?
    decreases members, 0
  {
    (members.lead + LiteralText(members.name)) + ((members.mid + [':' as int]) + (members.before + NodeText(members.value)))
  }

  function MembersText(members: Members): Text
    requires members.Members?
    decreases members, 1
  {
    MemberText(members)
    + (members.after + if members.rest.NoMembers? then ['}' as int] else [',' as int] + MembersText(members.rest))
  }

  // ---------------------------------------------------------------- duplicates, by meaning

  function NamesOf(members: Members): seq<Text>
    requires MembersWellFormed(members)
  {
    match members
    case NoMembers => []
    case Members(_, name, _, _, _, _, rest) => [NameOf(name)] + NamesOf(rest)
  }

  predicate Distinct(names: seq<Text>) {
    forall i, j | 0 <= i < j < |names| :: names[i] != names[j]
  }

  /** No object at any depth has two members of the same unescaped name. */
  predicate NoDuplicates(node: Node)
    requires WellFormed(node)
  {
    match node
    case Scalar(_) => true
    case Quoted(_) => true
    case List(_, items) => ItemsClean(items)
    case Object(_, members) => Distinct(NamesOf(members)) && ValuesClean(members)
  }

  predicate ItemsClean(items: Items)
    requires ItemsWellFormed(items)
  {
    items.NoItems? || (NoDuplicates(items.item) && ItemsClean(items.rest))
  }

  predicate ValuesClean(members: Members)
    requires MembersWellFormed(members)
  {
    members.NoMembers? || (NoDuplicates(members.value) && ValuesClean(members.rest))
  }

  // ---------------------------------------------------------------- positions

  predicate Agree(raw: Text, i: nat, s: Text, k: nat) {
    k < |s| && i + k < |raw| && raw[i + k] == s[k]
  }

  /** The text stands at a position of the raw one. */
  predicate At(raw: Text, i: nat, s: Text) {
    i + |s| <= |raw| && forall k: nat {:trigger Agree(raw, i, s, k)} | k < |s| :: Agree(raw, i, s, k)
  }

  lemma {:induction false} AtSplit(raw: Text, i: nat, s: Text, t: Text)
    requires At(raw, i, s + t)
    ensures At(raw, i, s) && At(raw, i + |s|, t)
  {
    forall k: nat | k < |s| ensures Agree(raw, i, s, k) { assert Agree(raw, i, s + t, k); }
    forall k: nat {:trigger Agree(raw, i + |s|, t, k)} | k < |t|
      ensures Agree(raw, i + |s|, t, k)
    {
      assert Agree(raw, i, s + t, |s| + k);
    }
  }

  lemma {:induction false} AtUnit(raw: Text, i: nat, s: Text)
    requires At(raw, i, s) && s != []
    ensures i < |raw| && raw[i] == s[0] && At(raw, i + 1, s[1..])
  {
    assert Agree(raw, i, s, 0);
    forall k: nat {:trigger Agree(raw, i + 1, s[1..], k)} | k < |s[1..]|
      ensures Agree(raw, i + 1, s[1..], k)
    {
      assert Agree(raw, i, s, k + 1);
    }
  }

  lemma {:induction false} AtSlice(raw: Text, i: nat, s: Text)
    requires At(raw, i, s)
    ensures raw[i..i + |s|] == s
  {
    forall k: nat | k < |s| ensures raw[i..i + |s|][k] == s[k] { assert Agree(raw, i, s, k); }
  }

  lemma {:induction false} SkipsBlank(raw: Text, i: nat, s: Text)
    requires At(raw, i, s) && Blank(s)
    requires i + |s| < |raw| ==> !Space(raw[i + |s|])
    ensures SkipSpace(raw, i) == i + |s|
    decreases |s|
  {
    if s != [] {
      AtUnit(raw, i, s);
      assert s[0] in s;
      SkipsBlank(raw, i + 1, s[1..]);
    }
  }

  lemma {:induction false} ScansLexeme(raw: Text, i: nat, s: Text)
    requires At(raw, i, s) && forall u <- s :: !EndsScalar(u)
    requires i + |s| < |raw| ==> EndsScalar(raw[i + |s|])
    ensures ScalarEnd(raw, i) == i + |s|
    decreases |s|
  {
    if s != [] {
      AtUnit(raw, i, s);
      assert s[0] in s;
      ScansLexeme(raw, i + 1, s[1..]);
    }
  }

  // ---------------------------------------------------------------- string literals

  lemma HexDigitPlain(u: Unit)
    requires HexValue(u).Some?
    ensures u != '"' as int && u != '\\' as int && u >= 0x20
  {
  }

  lemma {:induction false} PieceSkipped(raw: Text, i: nat, p: Piece)
    requires At(raw, i, PieceText(p)) && PieceOk(p)
    ensures StringEnd(raw, i) == StringEnd(raw, i + |PieceText(p)|)
  {
    var s := PieceText(p);
    AtUnit(raw, i, s);
    if p.Hex? {
      var d := p.digits;
      AtSplit(raw, i, ['\\' as int, 'u' as int], d);
      forall k | 0 <= k < 4
        ensures raw[i + 2 + k] == d[k] && raw[i + 2 + k] != '"' as int && raw[i + 2 + k] != '\\' as int
      {
        assert Agree(raw, i + 2, d, k);
        assert d[k] in d;
        HexDigitPlain(d[k]);
      }
      assert StringEnd(raw, i + 2) == StringEnd(raw, i + 3) == StringEnd(raw, i + 4) == StringEnd(raw, i + 5) == StringEnd(raw, i + 6)
      by {
        assert raw[i + 2] == d[0] && raw[i + 2 + 1] == d[1] && raw[i + 2 + 2] == d[2] && raw[i + 2 + 3] == d[3];
      }
    }
  }

  lemma {:induction false} LiteralSkipped(raw: Text, i: nat, pieces: seq<Piece>, body: Text)
    requires body == Body(pieces) && At(raw, i, body) && Literal(pieces)
    ensures StringEnd(raw, i) == StringEnd(raw, i + |body|)
  {
    EndsAlike(raw, i, pieces, body, StringEnd(raw, i));
  }

  lemma {:induction false} EndsAlike(raw: Text, i: nat, pieces: seq<Piece>, body: Text, end: Result<nat, JsonError>)
    requires body == Body(pieces) && At(raw, i, body) && Literal(pieces) && end == StringEnd(raw, i)
    ensures end == StringEnd(raw, i + |body|)
    decreases |pieces|
  {
    if pieces == [] {
      assert body == [];
    } else {
      var rest := Body(pieces[1..]);
      var k := FirstPiece(raw, i, pieces, body, rest);
      EndsAlike(raw, i + k, pieces[1..], rest, end);
    }
  }

  lemma {:induction false} FirstPiece(raw: Text, i: nat, pieces: seq<Piece>, body: Text, rest: Text) returns (k: nat)
    requires pieces != [] && body == Body(pieces) && rest == Body(pieces[1..]) && At(raw, i, body) && Literal(pieces)
    ensures |body| == k + |rest| && At(raw, i + k, rest) && Literal(pieces[1..])
    ensures StringEnd(raw, i) == StringEnd(raw, i + k)
  {
    assert pieces[0] in pieces;
    var first := PieceText(pieces[0]);
    k := |first|;
    AtSplit(raw, i, first, rest);
    PieceSkipped(raw, i, pieces[0]);
  }

  lemma {:induction false} PieceUnescapes(p: Piece, rest: Text)
    requires PieceOk(p)
    ensures Unescape(PieceText(p) + rest) == Prepend(PieceUnit(p), Unescape(rest))
  {
    var s := PieceText(p) + rest;
    assert s[|PieceText(p)|..] == rest;
    if p.Hex? { assert s[2..6] == p.digits; }
  }

  lemma {:induction false} NameCons(pieces: seq<Piece>)
    requires Literal(pieces) && pieces != []
    ensures PieceOk(pieces[0]) && Literal(pieces[1..]) && NameOf(pieces) == [PieceUnit(pieces[0])] + NameOf(pieces[1..])
  {
    assert pieces[0] in pieces;
  }

  /** Undoing the escapes of a literal gives its name. */
  lemma {:induction false} LiteralUnescapes(pieces: seq<Piece>)
    requires Literal(pieces)
    ensures Unescape(Body(pieces)) == Some(NameOf(pieces))
    decreases |pieces|
  {
    if pieces == [] {
      assert NameOf(pieces) == [];
    } else {
      NameCons(pieces);
      LiteralUnescapes(pieces[1..]);
      PieceUnescapes(pieces[0], Body(pieces[1..]));
    }
  }

  lemma {:induction false} BodyScans(raw: Text, i: nat, body: Text, name: Text)
    requires At(raw, i + 1, body) && StringEnd(raw, i + 1) == Ok(i + 1 + |body| + 1) && Unescape(body) == Some(name)
    ensures ScanString(raw, i) == Ok(Scanned(i + |body| + 2, name))
  {
    AtSlice(raw, i + 1, body);
  }

  lemma {:induction false} LiteralParts(raw: Text, i: nat, body: Text)
    requires At(raw, i, ['"' as int] + (body + ['"' as int]))
    ensures Is(raw, i, '"') && At(raw, i + 1, body) && Is(raw, i + 1 + |body|, '"')
  {
    AtSplit(raw, i, ['"' as int], body + ['"' as int]);
    AtUnit(raw, i, ['"' as int]);
    AtSplit(raw, i + 1, body, ['"' as int]);
    AtUnit(raw, i + 1 + |body|, ['"' as int]);
  }

  lemma {:induction false} LiteralScans(raw: Text, i: nat, pieces: seq<Piece>)
    requires At(raw, i, LiteralText(pieces)) && Literal(pieces)
    ensures ScanString(raw, i) == Ok(Scanned(i + |LiteralText(pieces)|, NameOf(pieces)))
    ensures Is(raw, i, '"')
  {
    LiteralParts(raw, i, Body(pieces));
    LiteralSkipped(raw, i + 1, pieces, Body(pieces));
    LiteralUnescapes(pieces);
    BodyScans(raw, i, Body(pieces), NameOf(pieces));
  }

  // ---------------------------------------------------------------- the scanner reads trees

  function Verdict(clean: bool, end: nat): Result<nat, JsonError> {
    if clean then Ok(end) else Err(DuplicateKey)
  }

  lemma {:induction false} NodeStarts(node: Node)
    requires WellFormed(node)
    ensures NodeText(node) != [] && !EndsScalar(NodeText(node)[0])
  {
    if node.Scalar? { assert node.lexeme[0] in node.lexeme; }
  }

  /** What may follow a value. */
  predicate Ends(raw: Text, i: nat) {
    i < |raw| ==> EndsScalar(raw[i])
  }

  /** A value with blanks before it, as it stands in the text. */
  lemma {:induction false} ValueScans(raw: Text, i: nat, before: Text, node: Node, value: Text)
    requires value == before + NodeText(node) && At(raw, i, value) && Blank(before) && WellFormed(node)
    requires Ends(raw, i + |value|)
    ensures i + |value| <= |raw| && ScanValue(raw, i) == Verdict(NoDuplicates(node), i + |value|)
    ensures SkipSpace(raw, i) < |raw| && !EndsScalar(raw[SkipSpace(raw, i)])
    decreases node, 2
  {
    var text, j := NodeText(node), i + |before|;
    AtSplit(raw, i, before, text);
    NodeStarts(node);
    AtUnit(raw, j, text);
    SkipsBlank(raw, i, before);
    NodeScans(raw, j, node, text);
    SameFromFirst(raw, i, j);
  }

  lemma {:induction false} SameFromFirst(raw: Text, i: nat, j: nat)
    requires i <= |raw| && j <= |raw| && SkipSpace(raw, i) == j && SkipSpace(raw, j) == j
    ensures ScanValue(raw, i) == ScanValue(raw, j)
  {
  }

  /** A value with nothing before it. */
  lemma {:induction false} NodeScans(raw: Text, i: nat, node: Node, text: Text)
    requires text == NodeText(node) && At(raw, i, text) && WellFormed(node) && Ends(raw, i + |text|)
    ensures i < |raw| && SkipSpace(raw, i) == i && ScanValue(raw, i) == Verdict(NoDuplicates(node), i + |text|)
    decreases node, 1
  {
    NodeStarts(node);
    AtUnit(raw, i, text);
    match node {
      case Scalar(lexeme) => ScansLexeme(raw, i, lexeme);
      case Quoted(pieces) => LiteralScans(raw, i, pieces);
      case List(_, _) => ListScans(raw, i, node, text);
      case Object(_, _) => ObjectScans(raw, i, node, text);
    }
  }

  lemma {:induction false} ListScans(raw: Text, i: nat, node: Node, text: Text)
    requires node.List? && text == NodeText(node) && At(raw, i, text) && WellFormed(node)
    ensures Is(raw, i, '[') && ScanArray(raw, i + 1) == Verdict(NoDuplicates(node), i + |text|)
    decreases node, 0
  {
    AtUnit(raw, i, text);
    if node.items.NoItems? {
      EmptyScans(raw, i + 1, node.gap, ']');
    } else {
      var inner := ItemsText(node.items);
      assert text[1..] == inner;
      ItemsScan(raw, i + 1, node.items, inner);
      ItemsAfterSpace(raw, i + 1);
    }
  }

  lemma {:induction false} ObjectScans(raw: Text, i: nat, node: Node, text: Text)
    requires node.Object? && text == NodeText(node) && At(raw, i, text) && WellFormed(node)
    ensures Is(raw, i, '{') && ScanObject(raw, i + 1) == Verdict(NoDuplicates(node), i + |text|)
    decreases node, 0
  {
    AtUnit(raw, i, text);
    if node.members.NoMembers? {
      EmptyScans(raw, i + 1, node.gap, '}');
    } else {
      var inner := MembersText(node.members);
      assert text[1..] == inner;
      TextStands(raw, i + 1, node.members, inner);
      MembersScan(raw, i + 1, node.members, {}, i + |text|);
      MembersAfterSpace(raw, i + 1);
      CleanObject(node);
    }
  }

  lemma {:induction false} CleanObject(node: Node)
    requires node.Object? && WellFormed(node)
    ensures NoDuplicates(node) == Accepts(node.members, {})
  {
    AcceptsMeaning(node.members, {});
  }

  lemma {:induction false} EmptyScans(raw: Text, i: nat, gap: Text, close: char)
    requires close in {']', '}'} && At(raw, i, gap + [close as int]) && Blank(gap)
    ensures SkipSpace(raw, i) == i + |gap| && Is(raw, i + |gap|, close)
  {
    AtSplit(raw, i, gap, [close as int]);
    AtUnit(raw, i + |gap|, [close as int]);
    SkipsBlank(raw, i, gap);
  }

  lemma {:induction false} SkipTwice(raw: Text, i: nat)
    requires i <= |raw|
    ensures SkipSpace(raw, SkipSpace(raw, i)) == SkipSpace(raw, i)
    decreases |raw| - i
  {
    if i < |raw| && Space(raw[i]) { SkipTwice(raw, i + 1); }
  }

  lemma {:induction false} ItemsAfterSpace(raw: Text, i: nat)
    requires i <= |raw| && !Is(raw, SkipSpace(raw, i), ']')
    ensures ScanArray(raw, i) == ScanItems(raw, i)
  {
    SkipTwice(raw, i);
    assert ScanValue(raw, SkipSpace(raw, i)) == ScanValue(raw, i);
    assert ScanPadded(raw, SkipSpace(raw, i)) == ScanPadded(raw, i);
  }

  lemma {:induction false} MembersAfterSpace(raw: Text, i: nat)
    requires i <= |raw| && Is(raw, SkipSpace(raw, i), '"')
    ensures ScanObject(raw, i) == ScanMembers(raw, i, {})
  {
    SkipTwice(raw, i);
    assert ScanMember(raw, SkipSpace(raw, i), {}) == ScanMember(raw, i, {});
  }

  /** White space and the separator or bracket behind it, after a value. */
  lemma {:induction false} AfterValue(raw: Text, i: nat, after: Text, next: Text)
    requires At(raw, i, after + next) && Blank(after) && next != [] && !Space(next[0]) && EndsScalar(next[0])
    ensures Ends(raw, i) && SkipSpace(raw, i) == i + |after|
    ensures i + |after| < |raw| && raw[i + |after|] == next[0] && At(raw, i + |after| + 1, next[1..])
  {
    AtSplit(raw, i, after, next);
    AtUnit(raw, i + |after|, next);
    SkipsBlank(raw, i, after);
    if after != [] {
      AtUnit(raw, i, after);
      assert after[0] in after;
    }
  }

  function ItemsNext(items: Items): Text
    requires items.Items?
  {
    if items.rest.NoItems? then [']' as int] else [',' as int] + ItemsText(items.rest)
  }

  /** Where a value, the blank after it and what comes next stand in the text. */
  lemma {:induction false} PartsAt(raw: Text, i: nat, value: Text, after: Text, next: Text)
    requires At(raw, i, value + (after + next)) && Blank(after)
    requires next != [] && (next[0] == ',' as int || next[0] == ']' as int || next[0] == '}' as int)
    ensures At(raw, i, value) && Ends(raw, i + |value|) && i + |value| <= |raw|
    ensures var end := i + |value| + |after| + 1;
            && end <= |raw| && SkipSpace(raw, i + |value|) + 1 == end && raw[end - 1] == next[0]
            && At(raw, end, next[1..]) && i + |value + (after + next)| == end + |next[1..]|
  {
    AtSplit(raw, i, value, after + next);
    AfterValue(raw, i + |value|, after, next);
  }

  lemma {:induction false} ItemsScan(raw: Text, i: nat, items: Items, text: Text)
    requires items.Items? && ItemsWellFormed(items) && text == ItemsText(items) && At(raw, i, text)
    ensures ScanItems(raw, i) == Verdict(ItemsClean(items), i + |text|)
    ensures SkipSpace(raw, i) < |raw| && !Is(raw, SkipSpace(raw, i), ']')
    decreases items, 1
  {
    var end, rest := ItemsHead(raw, i, items, text);
    ItemsStep(raw, i, NoDuplicates(items.item), end);
    if items.rest.Items? { ItemsScan(raw, end, items.rest, rest); }
  }

  /** The first item, and the position and text behind what separates it from the next. */
  lemma {:induction false} ItemsHead(raw: Text, i: nat, items: Items, text: Text) returns (end: nat, rest: Text)
    requires items.Items? && ItemsWellFormed(items) && text == ItemsText(items) && At(raw, i, text)
    ensures 0 < end <= |raw| && i + |text| == end + |rest| && At(raw, end, rest)
    ensures if items.rest.Items? then Is(raw, end - 1, ',') && rest == ItemsText(items.rest) else Is(raw, end - 1, ']') && rest == []
    ensures ScanPadded(raw, i) == Verdict(NoDuplicates(items.item), end - 1)
    ensures SkipSpace(raw, i) < |raw| && !Is(raw, SkipSpace(raw, i), ']')
    decreases items, 0
  {
    var value, next := items.before + NodeText(items.item), ItemsNext(items);
    ItemsSplit(items, text, value, next);
    PartsAt(raw, i, value, items.after, next);
    end, rest := i + |value| + |items.after| + 1, next[1..];
    PaddedScans(raw, i, items.before, items.item, value);
  }

  lemma {:induction false} ItemsSplit(items: Items, text: Text, value: Text, next: Text)
    requires items.Items? && text == ItemsText(items) && value == items.before + NodeText(items.item) && next == ItemsNext(items)
    ensures text == value + (items.after + next) && next != []
    ensures if items.rest.Items? then next[0] == ',' as int && next[1..] == ItemsText(items.rest) else next == [']' as int]
  {
  }

  lemma {:induction false} ItemsStep(raw: Text, i: nat, clean: bool, end: nat)
    requires i <= |raw| && 0 < end <= |raw| && ScanPadded(raw, i) == Verdict(clean, end - 1)
    ensures !clean ==> ScanItems(raw, i) == Err(DuplicateKey)
    ensures clean && Is(raw, end - 1, ']') ==> ScanItems(raw, i) == Ok(end)
    ensures clean && Is(raw, end - 1, ',') ==> ScanItems(raw, i) == ScanItems(raw, end)
  {
  }

  lemma {:induction false} PaddedScans(raw: Text, i: nat, before: Text, node: Node, value: Text)
    requires value == before + NodeText(node) && At(raw, i, value) && Blank(before) && WellFormed(node)
    requires Ends(raw, i + |value|)
    ensures i + |value| <= |raw| && ScanPadded(raw, i) == Verdict(NoDuplicates(node), SkipSpace(raw, i + |value|))
    ensures SkipSpace(raw, i) < |raw| && !EndsScalar(raw[SkipSpace(raw, i)])
    decreases node, 3
  {
    ValueScans(raw, i, before, node, value);
  }

  predicate Fresh(keys: set<Text>, names: seq<Text>) {
    forall n <- names :: n !in keys
  }

  /** No name already seen or seen twice, and no duplicates in the values. */
  predicate Accepts(members: Members, keys: set<Text>)
    requires MembersWellFormed(members)
  {
    members.Members? ==>
      && NameOf(members.name) !in keys && NoDuplicates(members.value)
      && Accepts(members.rest, keys + {NameOf(members.name)})
  }

  function Separator(members: Members): Unit
    requires members.Members?
  {
    if members.rest.NoMembers? then '}' as int else ',' as int
  }

  /** The position behind a member and what separates it from the next. */
  function MemberEnd(i: nat, members: Members): nat
    requires members.Members?
  {
    i + |MemberText(members)| + |members.after| + 1
  }

  /** Where the members stand in the text, one by one, and where the last one's brace ends. */
  ghost predicate Stands(raw: Text, i: nat, members: Members, end: nat)
    requires members.Members?
    decreases members
  {
    var text := MemberText(members);
    && At(raw, i, text) && At(raw, i + |text|, members.after + [Separator(members)])
    && if members.rest.NoMembers? then end == MemberEnd(i, members) else Stands(raw, MemberEnd(i, members), members.rest, end)
  }

  lemma {:induction false} TextStands(raw: Text, i: nat, members: Members, text: Text)
    requires members.Members? && text == MembersText(members) && At(raw, i, text)
    ensures Stands(raw, i, members, i + |text|)
    decreases members
  {
    var member, sep := MemberText(members), [Separator(members)];
    if members.rest.NoMembers? {
      AtSplit(raw, i, member, members.after + sep);
    } else {
      var rest := MembersText(members.rest);
      MemberParts(raw, i, member, members.after, sep + rest);
      AtGlue(raw, i + |member|, members.after, sep, rest);
      TextStands(raw, MemberEnd(i, members), members.rest, rest);
    }
  }

  lemma {:induction false} AtGlue(raw: Text, i: nat, s: Text, t: Text, u: Text)
    requires At(raw, i, s) && At(raw, i + |s|, t + u)
    ensures At(raw, i, s + t) && At(raw, i + |s + t|, u)
  {
    AtSplit(raw, i + |s|, t, u);
    forall k: nat {:trigger Agree(raw, i, s + t, k)} | k < |s + t|
      ensures Agree(raw, i, s + t, k)
    {
      assert if k < |s| then Agree(raw, i, s, k) else Agree(raw, i + |s|, t, k - |s|);
    }
  }

  lemma {:induction false} MembersScan(raw: Text, i: nat, members: Members, keys: set<Text>, end: nat)
    requires members.Members? && MembersWellFormed(members) && Stands(raw, i, members, end)
    ensures i <= |raw| && SkipSpace(raw, i) < |raw| && Is(raw, SkipSpace(raw, i), '"')
    ensures ScanMembers(raw, i, keys) == Verdict(Accepts(members, keys), end)
    decreases members, 2
  {
    var name, next := NameOf(members.name), MemberEnd(i, members);
    MembersUnfold(raw, i, members, keys, name, next);
    if members.rest.Members? { MembersScan(raw, next, members.rest, keys + {name}, end); }
  }

  /** Scanning members is scanning the first and then the rest behind its comma. */
  lemma {:induction false} MembersUnfold(raw: Text, i: nat, members: Members, keys: set<Text>, name: Text, next: nat)
    requires members.Members? && MembersWellFormed(members) && At(raw, i, MemberText(members))
    requires At(raw, i + |MemberText(members)|, members.after + [Separator(members)])
    requires name == NameOf(members.name) && next == MemberEnd(i, members)
    ensures 0 < next <= |raw| && SkipSpace(raw, i) < |raw| && Is(raw, SkipSpace(raw, i), '"')
    ensures ScanMembers(raw, i, keys)
            == if name in keys || !NoDuplicates(members.value) then Err(DuplicateKey)
               else if members.rest.NoMembers? then Ok(next)
               else ScanMembers(raw, next, keys + {name})
    decreases members, 1
  {
    var text := MemberText(members);
    AfterValue(raw, i + |text|, members.after, [Separator(members)]);
    MemberScans(raw, i, members, keys, name, text);
    MembersStep(raw, i, keys, name, NoDuplicates(members.value), next);
  }

  lemma {:induction false} AcceptsMeaning(members: Members, keys: set<Text>)
    requires MembersWellFormed(members)
    ensures Accepts(members, keys) <==> Fresh(keys, NamesOf(members)) && Distinct(NamesOf(members)) && ValuesClean(members)
  {
    if members.Members? {
      var name, rest := NameOf(members.name), NamesOf(members.rest);
      AcceptsMeaning(members.rest, keys + {name});
      FreshSplit(keys, name, rest);
      DistinctSplit(name, rest);
      assert Fresh(keys + {name}, rest) <==> Fresh(keys, rest) && Fresh({name}, rest);
    }
  }

  lemma {:induction false} MembersStep(raw: Text, i: nat, keys: set<Text>, name: Text, clean: bool, end: nat)
    requires i <= |raw| && 0 < end <= |raw| && (Is(raw, end - 1, '}') || Is(raw, end - 1, ','))
    requires ScanMember(raw, i, keys) == if name !in keys && clean then Ok(Scanned(end - 1, name)) else Err(DuplicateKey)
    ensures ScanMembers(raw, i, keys)
            == if name in keys || !clean then Err(DuplicateKey)
               else if Is(raw, end - 1, '}') then Ok(end)
               else ScanMembers(raw, end, keys + {name})
  {
  }

  lemma FreshSplit(keys: set<Text>, name: Text, rest: seq<Text>)
    ensures Fresh(keys, [name] + rest) <==> name !in keys && Fresh(keys, rest)
  {
    assert name == ([name] + rest)[0];
    assert forall n <- rest :: n in [name] + rest;
  }

  lemma DistinctSplit(name: Text, rest: seq<Text>)
    ensures Distinct([name] + rest) <==> Fresh({name}, rest) && Distinct(rest)
  {
    var names := [name] + rest;
    if Distinct(names) {
      forall n <- rest ensures n !in {name} {
        var j :| 0 <= j < |rest| && rest[j] == n;
        assert names[j + 1] != names[0];
      }
      forall i, j | 0 <= i < j < |rest| ensures rest[i] != rest[j] { assert names[i + 1] != names[j + 1]; }
    }
  }

  lemma {:induction false} MemberScans(raw: Text, i: nat, members: Members, keys: set<Text>, name: Text, text: Text)
    requires members.Members? && MembersWellFormed(members) && text == MemberText(members) && At(raw, i, text)
    requires Ends(raw, i + |text|) && name == NameOf(members.name)
    ensures i + |text| <= |raw| && SkipSpace(raw, i) < |raw| && Is(raw, SkipSpace(raw, i), '"')
    ensures ScanMember(raw, i, keys)
            == if name !in keys && NoDuplicates(members.value) then Ok(Scanned(SkipSpace(raw, i + |text|), name)) else Err(DuplicateKey)
    decreases members, 0
  {
    var value := members.before + NodeText(members.value);
    var k, colon := MemberKeyScans(raw, i, members, text, value);
    MemberFrom(raw, i, keys, Scanned(k, name), colon, members.before, members.value, value);
  }

  /** The rest of a member once its name and colon have been read. */
  lemma {:induction false} MemberFrom(raw: Text, i: nat, keys: set<Text>, key: Scanned, colon: nat, before: Text, node: Node, value: Text)
    requires i <= |raw| && Is(raw, SkipSpace(raw, i), '"') && ScanString(raw, SkipSpace(raw, i)) == Ok(key)
    requires SkipSpace(raw, key.end) == colon && Is(raw, colon, ':')
    requires value == before + NodeText(node) && At(raw, colon + 1, value) && Blank(before) && WellFormed(node)
    requires Ends(raw, colon + 1 + |value|)
    ensures colon + 1 + |value| <= |raw|
    ensures ScanMember(raw, i, keys)
            == if key.name !in keys && NoDuplicates(node) then Ok(Scanned(SkipSpace(raw, colon + 1 + |value|), key.name))
               else Err(DuplicateKey)
    decreases node, 4
  {
    var clean := NoDuplicates(node);
    PaddedScans(raw, colon + 1, before, node, value);
    MemberStep(raw, i, keys, key, colon, clean, SkipSpace(raw, colon + 1 + |value|));
  }

  /** The name and the colon, and the text of the value behind them. */
  lemma {:induction false} MemberKeyScans(raw: Text, i: nat, members: Members, text: Text, value: Text)
    returns (k: nat, colon: nat)
    requires members.Members? && MembersWellFormed(members) && text == MemberText(members) && At(raw, i, text)
    requires value == members.before + NodeText(members.value)
    ensures SkipSpace(raw, i) < |raw| && Is(raw, SkipSpace(raw, i), '"')
    ensures ScanString(raw, SkipSpace(raw, i)) == Ok(Scanned(k, NameOf(members.name)))
    ensures k <= |raw| && SkipSpace(raw, k) == colon && Is(raw, colon, ':')
    ensures At(raw, colon + 1, value) && i + |text| == colon + 1 + |value|
  {
    var named, separator := members.lead + LiteralText(members.name), members.mid + [':' as int];
    MemberParts(raw, i, named, separator, value);
    k := i + |named|;
    colon := k + |members.mid|;
    NameScans(raw, i, members.lead, members.name, named);
    ColonScans(raw, k, members.mid);
  }

  lemma {:induction false} MemberParts(raw: Text, i: nat, named: Text, colon: Text, value: Text)
    requires At(raw, i, named + (colon + value))
    ensures At(raw, i, named) && At(raw, i + |named|, colon) && At(raw, i + |named| + |colon|, value)
  {
    AtSplit(raw, i, named, colon + value);
    AtSplit(raw, i + |named|, colon, value);
  }

  lemma {:induction false} MemberStep(raw: Text, i: nat, keys: set<Text>, key: Scanned, colon: nat, clean: bool, end: nat)
    requires i <= |raw| && Is(raw, SkipSpace(raw, i), '"') && ScanString(raw, SkipSpace(raw, i)) == Ok(key)
    requires SkipSpace(raw, key.end) == colon && Is(raw, colon, ':') && ScanPadded(raw, colon + 1) == Verdict(clean, end)
    ensures ScanMember(raw, i, keys) == if key.name !in keys && clean then Ok(Scanned(end, key.name)) else Err(DuplicateKey)
  {
  }

  lemma {:induction false} NameScans(raw: Text, i: nat, lead: Text, name: seq<Piece>, text: Text)
    requires text == lead + LiteralText(name) && At(raw, i, text) && Blank(lead) && Literal(name)
    ensures i + |text| <= |raw| && SkipSpace(raw, i) < |raw| && Is(raw, SkipSpace(raw, i), '"')
    ensures ScanString(raw, SkipSpace(raw, i)) == Ok(Scanned(i + |text|, NameOf(name)))
  {
    AtSplit(raw, i, lead, LiteralText(name));
    LiteralScans(raw, i + |lead|, name);
    SkipsBlank(raw, i, lead);
  }

  lemma {:induction false} ColonScans(raw: Text, i: nat, mid: Text)
    requires At(raw, i, mid + [':' as int]) && Blank(mid)
    ensures SkipSpace(raw, i) == i + |mid| && Is(raw, i + |mid|, ':')
  {
    AtSplit(raw, i, mid, [':' as int]);
    AtUnit(raw, i + |mid|, [':' as int]);
    SkipsBlank(raw, i, mid);
  }

  /**
   * Every value, written with any white space and any escapes: the scanner consumes exactly the
   * text and accepts it if and only if no object at any depth names a member twice.
   */
  lemma {:induction false} DuplicatesAreFoundExactly(before: Text, node: Node, after: Text)
    requires Blank(before) && WellFormed(node) && Blank(after)
    ensures Check(before + NodeText(node) + after) == if NoDuplicates(node) then Ok(()) else Err(DuplicateKey)
  {
    var raw, value := before + NodeText(node) + after, before + NodeText(node);
    assert At(raw, 0, raw) by { assert forall k: nat :: k < |raw| ==> Agree(raw, 0, raw, k); }
    AtSplit(raw, 0, value, after);
    if after != [] {
      AtUnit(raw, |value|, after);
      assert after[0] in after;
    }
    ValueScans(raw, 0, before, node, value);
    SkipsBlank(raw, |value|, after);
  }
}
