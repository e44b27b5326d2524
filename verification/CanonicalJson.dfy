/** The canonical JSON text that identifies records, and the scoped keys built from it. */
module CanonicalJson {
  import opened Prelude

  /** JavaScript values as `stableJson` tells them apart; a finite number is the numeral it prints as. */
  datatype Json =
    | Undefined
    | Null
    | Bool(truth: bool)
    | Num(numeral: string)
    | NotFinite
    | Str(text: string)
    | Arr(items: seq<Json>)
    | Obj(members: seq<Member>)

  datatype Member = Member(key: string, value: Json)

  // ---------------------------------------------------------------- which values are meant

  predicate Numeral(s: string) {
    s != "" && (s[0] == '-' || '0' <= s[0] <= '9') && forall c <- s :: c in "0123456789+-.e"
  }

  predicate DistinctKeys(members: seq<Member>) {
    forall i, j | 0 <= i < j < |members| :: members[i].key != members[j].key
  }

  predicate Valid(v: Json) {
    match v
    case Num(numeral) => Numeral(numeral)
    case Arr(items) => forall x <- items :: Valid(x)
    case Obj(members) => DistinctKeys(members) && forall m <- members :: Valid(m.value)
    case _ => true
  }

  /** The same JSON value up to the order of members; a number JSON cannot express is null. */
  ghost predicate Same(v: Json, w: Json) {
    match v
    case Null => w in {Null, NotFinite}
    case NotFinite => w in {Null, NotFinite}
    case Arr(items) =>
      w.Arr? && |items| == |w.items| && forall i | 0 <= i < |items| :: Same(items[i], w.items[i])
    case Obj(members) =>
      && w.Obj?
      && (forall m <- members :: HasTwin(m, w.members))
      && (forall n <- w.members :: HasKey(members, n.key))
    case _ => v == w
  }

  ghost predicate HasTwin(m: Member, members: seq<Member>) {
    exists n <- members :: n.key == m.key && Same(m.value, n.value)
  }

  predicate HasKey(members: seq<Member>, key: string) {
    exists m <- members :: m.key == key
  }

  // ---------------------------------------------------------------- strings

  function HexDigit(n: nat): char
    requires n < 16
  {
    "0123456789abcdef"[n]
  }

  /** How a string literal writes one character (section 7 of RFC 8259). */
  function Escape(c: char): (s: string)
    ensures s != ""
  {
    if c == '"' then "\\\""
    else if c == '\\' then "\\\\"
    else if c == '\U{0008}' then "\\b"
    else if c == '\U{000C}' then "\\f"
    else if c == '\n' then "\\n"
    else if c == '\r' then "\\r"
    else if c == '\t' then "\\t"
    else if c < ' ' then "\\u00" + [HexDigit(c as int / 16), HexDigit(c as int % 16)]
    else [c]
  }

  function Escapes(s: string): string {
    if s == "" then "" else Escape(s[0]) + Escapes(s[1..])
  }

  function Quote(s: string): string {
    "\"" + Escapes(s) + "\""
  }

  // ---------------------------------------------------------------- sorting members

  /** A character's place among UTF-16 code units; a pair of surrogates sorts by its units. */
  function Units(c: char): int {
    var n := c as int;
    if n < 0x1_0000 then n * 0x400
    else (0xD800 + (n - 0x1_0000) / 0x400) * 0x400 + (n - 0x1_0000) % 0x400
  }

  /** The order of Array.prototype.sort on strings. */
  predicate Less(s: string, t: string) {
    t != "" && (s == "" || Units(s[0]) < Units(t[0]) || (s[0] == t[0] && Less(s[1..], t[1..])))
  }

  function Insert(m: Member, sorted: seq<Member>): (r: seq<Member>)
    ensures multiset(r) == multiset(sorted) + multiset{m}
  {
    if sorted == [] || Less(m.key, sorted[0].key) then
      assert multiset([m] + sorted) == multiset(sorted) + multiset{m};
      [m] + sorted
    else
      assert sorted == [sorted[0]] + sorted[1..];
      [sorted[0]] + Insert(m, sorted[1..])
  }

  function Sorted(members: seq<Member>): (r: seq<Member>)
    ensures multiset(r) == multiset(members)
  {
    if members == [] then []
    else
      assert members == [members[0]] + members[1..];
      Insert(members[0], Sorted(members[1..]))
  }

  // ---------------------------------------------------------------- printing

  function StableJson(v: Json): string
    decreases v, 0
  {
    match v
    case Undefined => "undefined"
    case Null => "null"
    case NotFinite => "null"
    case Bool(truth) => if truth then "true" else "false"
    case Num(numeral) => numeral
    case Str(text) => Quote(text)
    case Arr(items) => "[" + Join(seq(|items|, i requires 0 <= i < |items| => StableJson(items[i]))) + "]"
    case Obj(members) =>
      var sorted := Sorted(members);
      "{" + Join(seq(|sorted|, i requires 0 <= i < |sorted| =>
                   assert sorted[i] in multiset(members);
                   Quote(sorted[i].key) + (":" + StableJson(sorted[i].value)))) + "}"
  }

  /** Array.prototype.join(",") */
  function Join(texts: seq<string>): string {
    if texts == [] then ""
    else if |texts| == 1 then texts[0]
    else texts[0] + "," + Join(texts[1..])
  }

  // ---------------------------------------------------------------- quoted strings delimit themselves

  lemma EscapeDecides(c: char, d: char, s: string, t: string)
    requires Escape(c) + s == Escape(d) + t
    ensures c == d && s == t
  {
    var x, y := Escape(c), Escape(d);
    var u := x + s;
    assert u[0] == x[0] == y[0];
    if x[0] == '\\' {
      assert u[1] == x[1] == y[1];
      if |x| == 6 {
        assert u[4] == x[4] == y[4] && u[5] == x[5] == y[5];
        HexInjective(c as int / 16, d as int / 16);
        HexInjective(c as int % 16, d as int % 16);
      }
    }
    assert c == d;
    assert s == u[|x|..] == t;
  }

  lemma HexInjective(m: nat, n: nat)
    requires m < 16 && n < 16 && HexDigit(m) == HexDigit(n)
    ensures m == n
  {
  }

  lemma EscapesStart(x: string, s: string)
    ensures (Escapes(x) + ("\"" + s))[0] == '"' <==> x == ""
  {
    if x == "" {
      assert Escapes(x) + ("\"" + s) == "\"" + s;
    } else {
      assert (Escapes(x) + ("\"" + s))[0] == Escape(x[0])[0];
    }
  }

  lemma Cancel(x: string, s: string, t: string)
    requires x + s == x + t
    ensures s == t
  {
    assert s == (x + s)[|x|..] && t == (x + t)[|x|..];
  }

  lemma {:induction false} EscapesDecide(x: string, y: string, s: string, t: string)
    requires Escapes(x) + ("\"" + s) == Escapes(y) + ("\"" + t)
    ensures x == y && s == t
  {
    EscapesStart(x, s);
    EscapesStart(y, t);
    if x == "" {
      assert Escapes(x) + ("\"" + s) == "\"" + s && Escapes(y) + ("\"" + t) == "\"" + t;
      Cancel("\"", s, t);
    } else {
      var restX, restY := Escapes(x[1..]) + ("\"" + s), Escapes(y[1..]) + ("\"" + t);
      Assoc(Escape(x[0]), Escapes(x[1..]), "\"" + s);
      Assoc(Escape(y[0]), Escapes(y[1..]), "\"" + t);
      EscapeDecides(x[0], y[0], restX, restY);
      EscapesDecide(x[1..], y[1..], s, t);
      assert x == [x[0]] + x[1..] && y == [y[0]] + y[1..];
    }
  }

  /** A quoted string at the start of a text is readable without knowing what follows. */
  lemma QuoteDecides(x: string, y: string, s: string, t: string)
    requires Quote(x) + s == Quote(y) + t
    ensures x == y && s == t
  {
    Bracketed("\"", Escapes(x), "\"", s);
    Bracketed("\"", Escapes(y), "\"", t);
    Cancel("\"", Escapes(x) + ("\"" + s), Escapes(y) + ("\"" + t));
    EscapesDecide(x, y, s, t);
  }

  // ---------------------------------------------------------------- texts decide where they end

  /** What can follow a value inside a larger one. */
  predicate Stops(s: string) {
    s == "" || s[0] in ",]}"
  }

  /** Two texts that start alike and are followed by a delimiter are the same text. */
  ghost predicate Decisive(x: string, y: string) {
    forall a, b {:trigger x + a, y + b} | Stops(a) && Stops(b) && x + a == y + b :: a == b
  }

  lemma DecisiveSame(x: string, y: string, a: string, b: string)
    requires Decisive(x, y) && Stops(a) && Stops(b) && x + a == y + b
    ensures x == y && a == b
  {
    assert x == (x + a)[..|x + a| - |a|];
    assert y == (y + b)[..|y + b| - |b|];
  }

  predicate Opens(s: string) {
    s != "" && s[0] !in ",]}"
  }

  /** What follows the first of the joined texts. */
  function AfterFirst(texts: seq<string>, rest: string): string
    requires texts != []
  {
    if |texts| == 1 then rest else "," + (Join(texts[1..]) + rest)
  }

  lemma JoinFirst(texts: seq<string>, rest: string)
    requires texts != []
    ensures Join(texts) + rest == texts[0] + AfterFirst(texts, rest)
  {
  }

  /** Whether there is a first text shows in the first character. */
  lemma JoinStarts(texts: seq<string>, rest: string)
    requires (forall x <- texts :: Opens(x)) && rest != "" && rest[0] in "]}"
    ensures Join(texts) + rest != "" && ((Join(texts) + rest)[0] in "]}" <==> texts == [])
  {
    if texts != [] {
      JoinFirst(texts, rest);
      assert texts[0] in texts;
    }
  }

  /** Joined texts between brackets are separated in one way only. */
  lemma {:induction false} JoinDecides(xs: seq<string>, ys: seq<string>, s: string, t: string)
    requires forall x <- xs :: Opens(x)
    requires forall y <- ys :: Opens(y)
    requires forall x, y | x in xs && y in ys :: Decisive(x, y)
    requires s != "" && t != "" && s[0] in "]}" && t[0] in "]}"
    requires Join(xs) + s == Join(ys) + t
    ensures xs == ys && s == t
  {
    JoinStarts(xs, s);
    JoinStarts(ys, t);
    if xs == [] {
      assert Join([]) + s == s && Join([]) + t == t;
    } else {
      FirstsDecide(xs, ys, s, t);
      RestsMeet(xs, ys, s, t);
      if |xs| > 1 { JoinDecides(xs[1..], ys[1..], s, t); }
      assert xs == [xs[0]] + xs[1..] && ys == [ys[0]] + ys[1..];
    }
  }

  lemma {:induction false} RestsMeet(xs: seq<string>, ys: seq<string>, s: string, t: string)
    requires xs != [] && ys != [] && AfterFirst(xs, s) == AfterFirst(ys, t)
    requires s != "" && t != "" && s[0] in "]}" && t[0] in "]}"
    ensures |xs| == 1 <==> |ys| == 1
    ensures if |xs| == 1 then s == t else Join(xs[1..]) + s == Join(ys[1..]) + t
  {
    if |xs| > 1 && |ys| > 1 { Cancel(",", Join(xs[1..]) + s, Join(ys[1..]) + t); }
  }

  lemma {:induction false} FirstsDecide(xs: seq<string>, ys: seq<string>, s: string, t: string)
    requires xs != [] && ys != [] && Decisive(xs[0], ys[0])
    requires s != "" && t != "" && s[0] in "]}" && t[0] in "]}"
    requires Join(xs) + s == Join(ys) + t
    ensures xs[0] == ys[0] && AfterFirst(xs, s) == AfterFirst(ys, t)
  {
    JoinFirst(xs, s);
    JoinFirst(ys, t);
    DecisiveSame(xs[0], ys[0], AfterFirst(xs, s), AfterFirst(ys, t));
  }

  function ItemTexts(items: seq<Json>): (r: seq<string>)
    ensures |r| == |items| && forall i | 0 <= i < |r| :: r[i] == StableJson(items[i])
  {
    seq(|items|, i requires 0 <= i < |items| => StableJson(items[i]))
  }

  function Entry(m: Member): string {
    Quote(m.key) + (":" + StableJson(m.value))
  }

  function EntryTexts(members: seq<Member>): (r: seq<string>)
    ensures |r| == |members| && forall i | 0 <= i < |r| :: r[i] == Entry(members[i])
  {
    seq(|members|, i requires 0 <= i < |members| => Entry(members[i]))
  }

  lemma ArrText(items: seq<Json>)
    ensures StableJson(Arr(items)) == "[" + Join(ItemTexts(items)) + "]"
  {
    assert seq(|items|, i requires 0 <= i < |items| => StableJson(items[i])) == ItemTexts(items);
  }

  lemma ObjText(members: seq<Member>)
    ensures StableJson(Obj(members)) == "{" + Join(EntryTexts(Sorted(members))) + "}"
  {
    var sorted := Sorted(members);
    var texts := seq(|sorted|, i requires 0 <= i < |sorted| => Quote(sorted[i].key) + (":" + StableJson(sorted[i].value)));
    assert texts == EntryTexts(sorted);
  }

  lemma TextOpens(v: Json)
    requires Valid(v)
    ensures Opens(StableJson(v))
    ensures v.Arr? <==> StableJson(v)[0] == '['
    ensures v.Obj? <==> StableJson(v)[0] == '{'
    ensures v.Str? <==> StableJson(v)[0] == '"'
  {
  }

  lemma ArrDecides(v: Json, w: Json, a: string, b: string)
    requires v.Arr? && w.Arr? && Valid(v) && Valid(w) && StableJson(v) + a == StableJson(w) + b
    requires forall x, y | x in v.items && y in w.items :: Decisive(StableJson(x), StableJson(y))
    ensures a == b && ItemTexts(v.items) == ItemTexts(w.items)
  {
    var xs, ys := ItemTexts(v.items), ItemTexts(w.items);
    forall x <- v.items ensures Opens(StableJson(x)) { TextOpens(x); }
    forall y <- w.items ensures Opens(StableJson(y)) { TextOpens(y); }
    ArrText(v.items);
    ArrText(w.items);
    Bracketed("[", Join(xs), "]", a);
    Bracketed("[", Join(ys), "]", b);
    Cancel("[", Join(xs) + ("]" + a), Join(ys) + ("]" + b));
    JoinDecides(xs, ys, "]" + a, "]" + b);
    Cancel("]", a, b);
  }

  lemma EntryDecides(m: Member, n: Member, a: string, b: string)
    requires Entry(m) + a == Entry(n) + b
    ensures m.key == n.key && StableJson(m.value) + a == StableJson(n.value) + b
  {
    var x, y := StableJson(m.value), StableJson(n.value);
    Assoc(Quote(m.key), ":" + x, a);
    Assoc(Quote(n.key), ":" + y, b);
    Assoc(":", x, a);
    Assoc(":", y, b);
    QuoteDecides(m.key, n.key, ":" + x + a, ":" + y + b);
    Cancel(":", x + a, y + b);
  }

  lemma EntriesDecide(m: Member, n: Member)
    requires Decisive(StableJson(m.value), StableJson(n.value))
    ensures Decisive(Entry(m), Entry(n))
  {
    forall a, b | Stops(a) && Stops(b) && Entry(m) + a == Entry(n) + b
      ensures a == b
    {
      EntryDecides(m, n, a, b);
    }
  }

  lemma ObjectTexts(v: Json, w: Json)
    requires v.Obj? && w.Obj?
    requires forall m, n | m in v.members && n in w.members :: Decisive(StableJson(m.value), StableJson(n.value))
    ensures forall x, y | x in EntryTexts(Sorted(v.members)) && y in EntryTexts(Sorted(w.members)) :: Decisive(x, y)
  {
    var xs, ys := EntryTexts(Sorted(v.members)), EntryTexts(Sorted(w.members));
    SortedIn(v.members);
    SortedIn(w.members);
    forall x, y | x in xs && y in ys
      ensures Decisive(x, y)
    {
      var i :| 0 <= i < |xs| && xs[i] == x;
      var j :| 0 <= j < |ys| && ys[j] == y;
      EntriesDecide(Sorted(v.members)[i], Sorted(w.members)[j]);
    }
  }

  lemma EntryOpens(members: seq<Member>)
    ensures forall x <- EntryTexts(members) :: Opens(x)
  {
  }

  lemma ObjDecides(v: Json, w: Json, a: string, b: string)
    requires v.Obj? && w.Obj? && StableJson(v) + a == StableJson(w) + b
    requires forall m, n | m in v.members && n in w.members :: Decisive(StableJson(m.value), StableJson(n.value))
    ensures a == b && EntryTexts(Sorted(v.members)) == EntryTexts(Sorted(w.members))
  {
    var xs, ys := EntryTexts(Sorted(v.members)), EntryTexts(Sorted(w.members));
    ObjectTexts(v, w);
    EntryOpens(Sorted(v.members));
    EntryOpens(Sorted(w.members));
    ObjText(v.members);
    ObjText(w.members);
    Bracketed("{", Join(xs), "}", a);
    Bracketed("{", Join(ys), "}", b);
    Cancel("{", Join(xs) + ("}" + a), Join(ys) + ("}" + b));
    JoinDecides(xs, ys, "}" + a, "}" + b);
    Cancel("}", a, b);
  }

  lemma Bracketed(open: string, inner: string, close: string, rest: string)
    ensures open + inner + close + rest == open + (inner + (close + rest))
  {
    Assoc(open, inner, close);
    Assoc(open, inner + close, rest);
    Assoc(inner, close, rest);
  }

  lemma SortedIn(members: seq<Member>)
    ensures |Sorted(members)| == |members|
    ensures forall m :: m in Sorted(members) <==> m in members
  {
    assert |multiset(Sorted(members))| == |multiset(members)|;
    forall m
      ensures m in Sorted(members) <==> m in members
    {
      assert m in multiset(Sorted(members)) <==> m in multiset(members);
    }
  }

  /** A numeral ends no later than a text that is followed by a delimiter. */
  lemma NumeralEnds(x: string, y: string, a: string, b: string)
    requires Numeral(y) && Stops(a) && x + a == y + b
    ensures |y| <= |x|
  {
    var u := x + a;
    assert |x| < |u| ==> u[|x|] == a[0];
    assert forall k | 0 <= k < |y| :: u[k] == y[k] && y[k] in y;
  }

  lemma NumeralsDecide(x: string, y: string)
    requires Numeral(x) && Numeral(y)
    ensures Decisive(x, y)
  {
    forall a, b | Stops(a) && Stops(b) && x + a == y + b
      ensures a == b
    {
      NumeralEnds(x, y, a, b);
      NumeralEnds(y, x, b, a);
      assert a == (x + a)[|x|..] && b == (y + b)[|y|..];
    }
  }

  /** Texts of which one at most is in brackets: literals, numerals and strings. */
  lemma ScalarDecides(v: Json, w: Json)
    requires Valid(v) && Valid(w) && !(v.Arr? && w.Arr?) && !(v.Obj? && w.Obj?)
    ensures Decisive(StableJson(v), StableJson(w))
    ensures StableJson(v) == StableJson(w) <==> Same(v, w)
  {
    var x, y := StableJson(v), StableJson(w);
    TextOpens(v);
    TextOpens(w);
    if v.Num? && w.Num? {
      NumeralsDecide(x, y);
    } else if v.Str? && w.Str? {
      forall a, b | x + a == y + b ensures a == b { QuoteDecides(v.text, w.text, a, b); }
      if x == y { QuoteDecides(v.text, w.text, "", ""); }
    } else if x == y {
      forall a, b | x + a == y + b ensures a == b { Cancel(x, a, b); }
    } else {
      assert x[0] != y[0] && forall a, b :: (x + a)[0] == x[0] && (y + b)[0] == y[0];
    }
  }

  lemma {:induction false} TextsDecide(v: Json, w: Json)
    requires Valid(v) && Valid(w)
    ensures Decisive(StableJson(v), StableJson(w))
    decreases v
  {
    if v.Arr? && w.Arr? {
      forall x, y | x in v.items && y in w.items
        ensures Decisive(StableJson(x), StableJson(y))
      {
        TextsDecide(x, y);
      }
      forall a, b | Stops(a) && Stops(b) && StableJson(v) + a == StableJson(w) + b
        ensures a == b
      {
        ArrDecides(v, w, a, b);
      }
    } else if v.Obj? && w.Obj? {
      forall m, n | m in v.members && n in w.members
        ensures Decisive(StableJson(m.value), StableJson(n.value))
      {
        TextsDecide(m.value, n.value);
      }
      forall a, b | Stops(a) && Stops(b) && StableJson(v) + a == StableJson(w) + b
        ensures a == b
      {
        ObjDecides(v, w, a, b);
      }
    } else {
      ScalarDecides(v, w);
    }
  }

  // ---------------------------------------------------------------- sorted members are unique

  lemma UnitsInjective(c: char, d: char)
    requires Units(c) == Units(d)
    ensures c == d
  {
  }

  lemma {:induction false} LessTotal(s: string, t: string)
    ensures Less(s, t) || s == t || Less(t, s)
    ensures !(Less(s, t) && Less(t, s)) && !Less(s, s)
  {
    if s != "" && t != "" {
      if Units(s[0]) == Units(t[0]) { UnitsInjective(s[0], t[0]); }
      LessTotal(s[1..], t[1..]);
      if s[1..] == t[1..] && s[0] == t[0] { assert s == [s[0]] + s[1..] && t == [t[0]] + t[1..]; }
    }
    if s != "" { LessTotal(s[1..], s[1..]); }
  }

  lemma {:induction false} LessTransitive(s: string, t: string, u: string)
    requires Less(s, t) && Less(t, u)
    ensures Less(s, u)
  {
    if s != "" && s[0] == t[0] && t[0] == u[0] && Less(s[1..], t[1..]) && Less(t[1..], u[1..]) {
      LessTransitive(s[1..], t[1..], u[1..]);
    }
  }

  predicate Ascending(members: seq<Member>) {
    forall i, j | 0 <= i < j < |members| :: Less(members[i].key, members[j].key)
  }

  lemma {:induction false} InsertAscends(m: Member, members: seq<Member>)
    requires Ascending(members) && forall n <- members :: n.key != m.key
    ensures Ascending(Insert(m, members))
  {
    if members != [] {
      var first, rest := members[0], members[1..];
      LessTotal(m.key, first.key);
      if Less(m.key, first.key) {
        forall n <- rest ensures Less(m.key, n.key) { LessTransitive(m.key, first.key, n.key); }
      } else {
        InsertAscends(m, rest);
        AfterInsert(m, first, rest);
      }
    }
  }

  lemma {:induction false} AfterInsert(m: Member, first: Member, rest: seq<Member>)
    requires Less(first.key, m.key) && forall n <- rest :: Less(first.key, n.key)
    ensures forall n <- Insert(m, rest) :: Less(first.key, n.key)
  {
    forall n <- Insert(m, rest)
      ensures Less(first.key, n.key)
    {
      assert n in multiset(Insert(m, rest));
    }
  }

  lemma {:induction false} SortedAscends(members: seq<Member>)
    requires DistinctKeys(members)
    ensures Ascending(Sorted(members))
  {
    if members != [] {
      SortedAscends(members[1..]);
      SortedIn(members[1..]);
      InsertAscends(members[0], Sorted(members[1..]));
    }
  }

  /** Two ascending lists with the same keys have them at the same places. */
  lemma {:induction false} AscendingUnique(ms: seq<Member>, ns: seq<Member>)
    requires Ascending(ms) && Ascending(ns)
    requires (forall m <- ms :: HasKey(ns, m.key)) && (forall n <- ns :: HasKey(ms, n.key))
    ensures |ms| == |ns| && forall i | 0 <= i < |ms| :: ms[i].key == ns[i].key
  {
    if ms == [] || ns == [] {
      assert ms != [] ==> ms[0] in ms && HasKey(ns, ms[0].key);
      assert ns != [] ==> ns[0] in ns && HasKey(ms, ns[0].key);
    } else {
      FirstLeast(ms, ns);
      FirstLeast(ns, ms);
      LessTotal(ms[0].key, ns[0].key);
      RestHasKeys(ms, ns);
      RestHasKeys(ns, ms);
      AscendingUnique(ms[1..], ns[1..]);
    }
  }

  lemma FirstLeast(ms: seq<Member>, ns: seq<Member>)
    requires Ascending(ms) && ms != [] && ns != [] && HasKey(ms, ns[0].key)
    ensures ms[0].key == ns[0].key || Less(ms[0].key, ns[0].key)
  {
  }

  lemma RestHasKeys(ms: seq<Member>, ns: seq<Member>)
    requires Ascending(ms) && ms != [] && ns != [] && ms[0].key == ns[0].key
    requires forall m <- ms :: HasKey(ns, m.key)
    ensures forall m <- ms[1..] :: HasKey(ns[1..], m.key)
  {
    forall m <- ms[1..]
      ensures HasKey(ns[1..], m.key)
    {
      assert m in ms && HasKey(ns, m.key);
      LessTotal(ms[0].key, m.key);
      var n :| n in ns && n.key == m.key;
      assert n in ns[1..];
    }
  }

  // ---------------------------------------------------------------- the text is the value

  ghost predicate Aligned(ms: seq<Member>, ns: seq<Member>) {
    |ms| == |ns| && forall i | 0 <= i < |ms| :: ms[i].key == ns[i].key && Same(ms[i].value, ns[i].value)
  }

  ghost predicate Matched(ms: seq<Member>, ns: seq<Member>) {
    (forall m <- ms :: HasTwin(m, ns)) && (forall n <- ns :: HasKey(ms, n.key))
  }

  /** Sorted members with the same values under the same keys stand at the same places, and conversely. */
  lemma MatchedAligns(ms: seq<Member>, ns: seq<Member>)
    requires Ascending(ms) && Ascending(ns) && Matched(ms, ns)
    ensures Aligned(ms, ns)
  {
    forall m <- ms ensures HasKey(ns, m.key) { assert HasTwin(m, ns); }
    AscendingUnique(ms, ns);
    forall i | 0 <= i < |ms|
      ensures Same(ms[i].value, ns[i].value)
    {
      assert HasTwin(ms[i], ns);
      var n :| n in ns && n.key == ms[i].key && Same(ms[i].value, n.value);
      var j :| 0 <= j < |ns| && ns[j] == n;
      LessTotal(n.key, n.key);
    }
  }

  lemma AlignedMatches(ms: seq<Member>, ns: seq<Member>)
    requires Aligned(ms, ns)
    ensures Matched(ms, ns)
  {
    forall m <- ms
      ensures HasTwin(m, ns)
    {
      var i :| 0 <= i < |ms| && ms[i] == m;
      assert ns[i] in ns;
    }
    forall n <- ns
      ensures HasKey(ms, n.key)
    {
      var i :| 0 <= i < |ns| && ns[i] == n;
      assert ms[i] in ms;
    }
  }

  lemma TwinSorted(m: Member, members: seq<Member>)
    ensures HasTwin(m, members) <==> HasTwin(m, Sorted(members))
    ensures HasKey(members, m.key) <==> HasKey(Sorted(members), m.key)
  {
    SortedIn(members);
  }

  lemma SameIsAligned(v: Json, w: Json)
    requires v.Obj? && w.Obj? && Valid(v) && Valid(w)
    ensures Same(v, w) <==> Aligned(Sorted(v.members), Sorted(w.members))
  {
    var ms, ns := Sorted(v.members), Sorted(w.members);
    SortedIn(v.members);
    SortedIn(w.members);
    forall m ensures HasTwin(m, w.members) <==> HasTwin(m, ns) { TwinSorted(m, w.members); }
    forall n: Member ensures HasKey(v.members, n.key) <==> HasKey(ms, n.key) { TwinSorted(n, v.members); }
    assert Same(v, w) <==> Matched(ms, ns);
    SortedAscends(v.members);
    SortedAscends(w.members);
    if Matched(ms, ns) { MatchedAligns(ms, ns); }
    if Aligned(ms, ns) { AlignedMatches(ms, ns); }
  }

  /**
   * The canonical text is the value: two values have the same text exactly when they are the same
   * JSON value up to the order of object members.
   */
  lemma {:induction false} StableJsonIsCanonical(v: Json, w: Json)
    requires Valid(v) && Valid(w)
    ensures StableJson(v) == StableJson(w) <==> Same(v, w)
    decreases v
  {
    if v.Arr? && w.Arr? {
      ItemsCanonical(v, w);
    } else if v.Obj? && w.Obj? {
      MembersCanonical(v, w);
    } else {
      ScalarDecides(v, w);
    }
  }

  lemma {:induction false} ItemsCanonical(v: Json, w: Json)
    requires v.Arr? && w.Arr? && Valid(v) && Valid(w)
    ensures StableJson(v) == StableJson(w) <==> Same(v, w)
    decreases v, 0
  {
    var xs, ys := ItemTexts(v.items), ItemTexts(w.items);
    ArrText(v.items);
    ArrText(w.items);
    if StableJson(v) == StableJson(w) {
      forall x, y | x in v.items && y in w.items
        ensures Decisive(StableJson(x), StableJson(y))
      {
        TextsDecide(x, y);
      }
      ArrDecides(v, w, "", "");
    }
    forall i | 0 <= i < |v.items| && i < |w.items|
      ensures xs[i] == ys[i] <==> Same(v.items[i], w.items[i])
    {
      StableJsonIsCanonical(v.items[i], w.items[i]);
    }
    if Same(v, w) {
      assert xs == ys;
    }
  }

  lemma {:induction false} MembersCanonical(v: Json, w: Json)
    requires v.Obj? && w.Obj? && Valid(v) && Valid(w)
    ensures StableJson(v) == StableJson(w) <==> Same(v, w)
    decreases v, 0
  {
    var ms, ns := Sorted(v.members), Sorted(w.members);
    ObjText(v.members);
    ObjText(w.members);
    SortedIn(v.members);
    SortedIn(w.members);
    SameIsAligned(v, w);
    forall i | 0 <= i < |ms| && i < |ns|
      ensures StableJson(ms[i].value) == StableJson(ns[i].value) <==> Same(ms[i].value, ns[i].value)
    {
      assert ms[i] in v.members && ns[i] in w.members;
      StableJsonIsCanonical(ms[i].value, ns[i].value);
    }
    if StableJson(v) == StableJson(w) { SameTextsAligned(v, w); }
    if Aligned(ms, ns) {
      assert EntryTexts(ms) == EntryTexts(ns);
    }
  }

  lemma {:induction false} SameTextsAligned(v: Json, w: Json)
    requires v.Obj? && w.Obj? && Valid(v) && Valid(w) && StableJson(v) == StableJson(w)
    ensures var ms, ns := Sorted(v.members), Sorted(w.members);
            |ms| == |ns| && forall i | 0 <= i < |ms| :: ms[i].key == ns[i].key && StableJson(ms[i].value) == StableJson(ns[i].value)
  {
    forall m, n | m in v.members && n in w.members
      ensures Decisive(StableJson(m.value), StableJson(n.value))
    {
      TextsDecide(m.value, n.value);
    }
    ObjDecides(v, w, "", "");
    EntriesAligned(Sorted(v.members), Sorted(w.members));
  }

  lemma {:induction false} EntriesAligned(ms: seq<Member>, ns: seq<Member>)
    requires EntryTexts(ms) == EntryTexts(ns)
    ensures |ms| == |ns| && forall i | 0 <= i < |ms| :: ms[i].key == ns[i].key && StableJson(ms[i].value) == StableJson(ns[i].value)
  {
    assert |ms| == |EntryTexts(ms)|;
    forall i | 0 <= i < |ms|
      ensures ms[i].key == ns[i].key && StableJson(ms[i].value) == StableJson(ns[i].value)
    {
      assert EntryTexts(ms)[i] == EntryTexts(ns)[i];
      EntryDecides(ms[i], ns[i], "", "");
      assert StableJson(ms[i].value) + "" == StableJson(ms[i].value);
      assert StableJson(ns[i].value) + "" == StableJson(ns[i].value);
    }
  }

  // ---------------------------------------------------------------- scoped keys

  datatype Scope = Scope(workspaceId: string, channelId: string)

  function ScopedKey(scope: Scope, kind: string, id: string): string {
    StableJson(Arr([Str(scope.workspaceId), Str(scope.channelId), Str(kind), Str(id)]))
  }

  function ScopedPrefix(scope: Scope, kind: string): string {
    var text := StableJson(Arr([Str(scope.workspaceId), Str(scope.channelId), Str(kind)]));
    text[..|text| - 1]
  }

  function Quoted(names: seq<string>): string {
    if names == [] then "" else "," + (Quote(names[0]) + Quoted(names[1..]))
  }

  lemma {:induction false} StringsText(names: seq<string>)
    requires names != []
    ensures "," + Join(ItemTexts(Strings(names))) == Quoted(names)
  {
    var texts := ItemTexts(Strings(names));
    assert texts[0] == Quote(names[0]);
    if |names| == 1 {
      assert Quote(names[0]) + Quoted(names[1..]) == Quote(names[0]);
    } else {
      StringsText(names[1..]);
      assert texts[1..] == ItemTexts(Strings(names[1..]));
      Assoc(texts[0], ",", Join(texts[1..]));
    }
  }

  function Strings(names: seq<string>): (r: seq<Json>)
    ensures |r| == |names| && forall i | 0 <= i < |r| :: r[i] == Str(names[i])
  {
    seq(|names|, i requires 0 <= i < |names| => Str(names[i]))
  }

  lemma {:induction false} QuotedDecides(xs: seq<string>, ys: seq<string>, s: string, t: string)
    requires |xs| == |ys| && Quoted(xs) + s == Quoted(ys) + t
    ensures xs == ys && s == t
  {
    if xs == [] {
      assert Quoted(xs) + s == s && Quoted(ys) + t == t;
    } else {
      QuotedFirst(xs, s);
      QuotedFirst(ys, t);
      Cancel(",", Quote(xs[0]) + (Quoted(xs[1..]) + s), Quote(ys[0]) + (Quoted(ys[1..]) + t));
      QuoteDecides(xs[0], ys[0], Quoted(xs[1..]) + s, Quoted(ys[1..]) + t);
      QuotedDecides(xs[1..], ys[1..], s, t);
      assert xs == [xs[0]] + xs[1..] && ys == [ys[0]] + ys[1..];
    }
  }

  lemma QuotedFirst(xs: seq<string>, s: string)
    requires xs != []
    ensures Quoted(xs) + s == "," + (Quote(xs[0]) + (Quoted(xs[1..]) + s))
  {
    Assoc(",", Quote(xs[0]) + Quoted(xs[1..]), s);
    Assoc(Quote(xs[0]), Quoted(xs[1..]), s);
  }

  lemma KeyText(scope: Scope, kind: string, id: string)
    ensures "," + ScopedKey(scope, kind, id)[1..] == Quoted([scope.workspaceId, scope.channelId, kind, id]) + "]"
  {
    var names := [scope.workspaceId, scope.channelId, kind, id];
    assert Strings(names) == [Str(scope.workspaceId), Str(scope.channelId), Str(kind), Str(id)];
    ArrText(Strings(names));
    StringsText(names);
    assert ScopedKey(scope, kind, id)[1..] == Join(ItemTexts(Strings(names))) + "]";
    Assoc(",", Join(ItemTexts(Strings(names))), "]");
  }

  lemma PrefixText(scope: Scope, kind: string)
    ensures ScopedPrefix(scope, kind) != "" && "," + ScopedPrefix(scope, kind)[1..] == Quoted([scope.workspaceId, scope.channelId, kind])
  {
    var names := [scope.workspaceId, scope.channelId, kind];
    assert Strings(names) == [Str(scope.workspaceId), Str(scope.channelId), Str(kind)];
    ArrText(Strings(names));
    StringsText(names);
    assert ScopedPrefix(scope, kind) == "[" + Join(ItemTexts(Strings(names)));
  }

  /**
   * A key starts with a prefix exactly when it was made for that scope and kind, whatever quotes,
   * backslashes or control characters the parts hold; so listing by prefix never leaks a scope.
   */
  lemma PrefixSelectsItsScope(s: Scope, kind: string, id: string, t: Scope, other: string)
    ensures ScopedPrefix(t, other) <= ScopedKey(s, kind, id) <==> s == t && kind == other
  {
    var key, prefix := ScopedKey(s, kind, id), ScopedPrefix(t, other);
    KeyText(s, kind, id);
    PrefixText(t, other);
    var mine, theirs := [s.workspaceId, s.channelId, kind], [t.workspaceId, t.channelId, other];
    KeySplits(mine, id);
    assert [s.workspaceId, s.channelId, kind, id] == mine + [id];
    var tail := "," + (Quote(id) + "]");
    assert key[0] == '[' == prefix[0];
    if prefix <= key {
      var rest := key[|prefix|..];
      assert "," + key[1..] == "," + prefix[1..] + rest;
      QuotedDecides(mine, theirs, tail, rest);
      assert mine[0] == theirs[0] && mine[1] == theirs[1] && mine[2] == theirs[2];
    }
    if mine == theirs {
      assert key == "[" + key[1..] && prefix == "[" + prefix[1..];
      assert "," + key[1..] == "," + prefix[1..] + tail;
      Assoc(",", prefix[1..], tail);
      Cancel(",", key[1..], prefix[1..] + tail);
    }
  }

  lemma {:induction false} KeySplits(names: seq<string>, id: string)
    ensures Quoted(names + [id]) + "]" == Quoted(names) + ("," + (Quote(id) + "]"))
  {
    if names == [] {
      assert Quoted([id]) == "," + Quote(id) by { assert [id][1..] == [] && Quote(id) + "" == Quote(id); }
      assert names + [id] == [id] && Quoted(names) == "";
    } else {
      KeySplits(names[1..], id);
      assert (names + [id])[1..] == names[1..] + [id];
      QuotedFirst(names + [id], "]");
      QuotedFirst(names, "," + (Quote(id) + "]"));
    }
  }

  /** Lists of as many strings never share a text. */
  lemma StringsInjective(xs: seq<string>, ys: seq<string>)
    requires |xs| == |ys| && xs != [] && StableJson(Arr(Strings(xs))) == StableJson(Arr(Strings(ys)))
    ensures xs == ys
  {
    ArrText(Strings(xs));
    ArrText(Strings(ys));
    StringsText(xs);
    StringsText(ys);
    var a, b := Join(ItemTexts(Strings(xs))), Join(ItemTexts(Strings(ys)));
    Assoc("[", a, "]");
    Assoc("[", b, "]");
    Cancel("[", a + "]", b + "]");
    Assoc(",", a, "]");
    Assoc(",", b, "]");
    QuotedDecides(xs, ys, "]", "]");
  }

  /** Different records never share a key. */
  lemma ScopedKeyInjective(s: Scope, kind: string, id: string, t: Scope, other: string, otherId: string)
    requires ScopedKey(s, kind, id) == ScopedKey(t, other, otherId)
    ensures s == t && kind == other && id == otherId
  {
    var mine, theirs := [s.workspaceId, s.channelId, kind, id], [t.workspaceId, t.channelId, other, otherId];
    assert Strings(mine) == [Str(s.workspaceId), Str(s.channelId), Str(kind), Str(id)];
    assert Strings(theirs) == [Str(t.workspaceId), Str(t.channelId), Str(other), Str(otherId)];
    StringsInjective(mine, theirs);
    assert forall i | 0 <= i < 4 :: mine[i] == theirs[i];
  }
}
