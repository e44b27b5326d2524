/**
 * JSON string literals written by the canonical printer and read by the duplicate-name scanner:
 * what one escapes the other unescapes.
 */
module JsonStrings {
  import opened Prelude
  import opened CanonicalJson
  import opened DuplicateKeys

  /** A character as UTF-16: one code unit, or a pair of surrogates. */
  function UnitsOfChar(c: char): Text {
    var n := c as int;
    if n < 0x1_0000 then [n] else [0xD800 + (n - 0x1_0000) / 0x400, 0xDC00 + (n - 0x1_0000) % 0x400]
  }

  function UnitsOf(s: string): Text {
    if s == "" then [] else UnitsOfChar(s[0]) + UnitsOf(s[1..])
  }

  lemma {:induction false} UnitsAppend(s: string, t: string)
    ensures UnitsOf(s + t) == UnitsOf(s) + UnitsOf(t)
    decreases |s|
  {
    if s == "" {
      assert s + t == t;
    } else {
      UnitsAppend(s[1..], t);
      assert (s + t)[1..] == s[1..] + t;
    }
  }

  /** Only the quote, the backslash and the control characters are escaped. */
  lemma EscapesOnly(c: char)
    ensures Escape(c) == [c] <==> c != '"' && c != '\\' && c as int >= 0x20
  {
  }

  lemma {:induction false} UnitReads(u: Unit, rest: Text)
    requires u != '"' as int && u != '\\' as int && u >= 0x20
    ensures Unescape([u] + rest) == match Unescape(rest) case Some(text) => Some([u] + text) case None => None
  {
    assert ([u] + rest)[0] == u && ([u] + rest)[1..] == rest;
  }

  lemma {:induction false} PlainReads(c: char, rest: Text)
    requires c != '"' && c != '\\' && c as int >= 0x20
    ensures Unescape(UnitsOfChar(c) + rest)
            == match Unescape(rest) case Some(text) => Some(UnitsOfChar(c) + text) case None => None
  {
    var units := UnitsOfChar(c);
    if |units| == 1 {
      UnitReads(units[0], rest);
    } else {
      UnitReads(units[1], rest);
      UnitReads(units[0], [units[1]] + rest);
      assert units + rest == [units[0]] + ([units[1]] + rest);
      assert forall text: Text :: [units[0]] + ([units[1]] + text) == units + text;
    }
  }

  lemma {:induction false} PairReads(letter: Unit, value: Unit, rest: Text)
    requires letter in ShortEscapes && ShortEscapes[letter] == value
    ensures Unescape(['\\' as int, letter] + rest) == match Unescape(rest) case Some(text) => Some([value] + text) case None => None
  {
    var body := ['\\' as int, letter] + rest;
    assert body[0] == '\\' as int && body[1] == letter && body[2..] == rest;
  }

  lemma {:induction false} HexReads(digits: Text, rest: Text)
    requires HexDigits(digits)
    ensures Unescape(['\\' as int, 'u' as int] + digits + rest)
            == match Unescape(rest) case Some(text) => Some([HexUnit(digits)] + text) case None => None
  {
    var body := ['\\' as int, 'u' as int] + digits + rest;
    assert body[0] == '\\' as int && body[1] == 'u' as int && body[2..6] == digits && body[6..] == rest;
    assert 'u' as int !in ShortEscapes;
  }

  lemma HexDigitReads(n: nat)
    requires n < 16
    ensures HexDigit(n) as int < 0x1_0000 && HexValue(HexDigit(n) as int) == Some(n)
  {
  }

  lemma {:induction false} TwoUnits(a: char, b: char)
    requires a as int < 0x1_0000 && b as int < 0x1_0000
    ensures UnitsOf([a, b]) == [a as int, b as int]
  {
    assert [a, b][1..] == [b] && [b][1..] == [];
    assert UnitsOf([b]) == [b as int] + [];
  }

  lemma {:induction false} SixUnits(h: char, l: char)
    requires h as int < 0x1_0000 && l as int < 0x1_0000
    ensures UnitsOf("\\u00" + [h, l]) == ['\\' as int, 'u' as int] + ['0' as int, '0' as int, h as int, l as int]
  {
    UnitsAppend("\\u" + "00", [h, l]);
    UnitsAppend("\\u", "00");
    TwoUnits('\\', 'u');
    TwoUnits('0', '0');
    TwoUnits(h, l);
    assert "\\u" + "00" == "\\u00" && "\\u" == ['\\', 'u'] && "00" == ['0', '0'];
  }

  lemma {:induction false} ControlReads(c: char, rest: Text)
    requires c as int < 0x20 && Escape(c) == "\\u00" + [HexDigit(c as int / 16), HexDigit(c as int % 16)]
    ensures Unescape(UnitsOf(Escape(c)) + rest) == match Unescape(rest) case Some(text) => Some([c as int] + text) case None => None
  {
    var h, l := HexDigit(c as int / 16), HexDigit(c as int % 16);
    HexDigitReads(0);
    HexDigitReads(c as int / 16);
    HexDigitReads(c as int % 16);
    SixUnits(h, l);
    var digits: Text := ['0' as int, '0' as int, h as int, l as int];
    HexReads(digits, rest);
  }

  lemma {:induction false} ShortReads(c: char, letter: char, rest: Text)
    requires letter as int < 0x1_0000 && c as int < 0x1_0000 && Escape(c) == ['\\', letter]
    requires letter as int in ShortEscapes && ShortEscapes[letter as int] == c as int
    ensures Unescape(UnitsOf(Escape(c)) + rest) == match Unescape(rest) case Some(text) => Some([c as int] + text) case None => None
  {
    TwoUnits('\\', letter);
    PairReads(letter as int, c as int, rest);
  }

  /** One character, escaped and read. */
  lemma {:induction false} CharReads(c: char, rest: Text)
    ensures Unescape(UnitsOf(Escape(c)) + rest)
            == match Unescape(rest) case Some(text) => Some(UnitsOfChar(c) + text) case None => None
  {
    EscapesOnly(c);
    if Escape(c) == [c] {
      assert UnitsOf([c]) == UnitsOfChar(c) by { assert [c][1..] == []; }
      PlainReads(c, rest);
    } else if c == '"' { ShortReads(c, '"', rest);
    } else if c == '\\' { ShortReads(c, '\\', rest);
    } else if c as int == 8 { ShortReads(c, 'b', rest);
    } else if c as int == 12 { ShortReads(c, 'f', rest);
    } else if c as int == 10 { ShortReads(c, 'n', rest);
    } else if c as int == 13 { ShortReads(c, 'r', rest);
    } else if c as int == 9 { ShortReads(c, 't', rest);
    } else { ControlReads(c, rest); }
  }

  /** What the canonical printer writes between the quotes, a JSON reader reads back, character for character. */
  lemma {:induction false} WrittenReadsBack(s: string)
    ensures Unescape(UnitsOf(Escapes(s))) == Some(UnitsOf(s))
  {
    if s != "" {
      WrittenReadsBack(s[1..]);
      UnitsAppend(Escape(s[0]), Escapes(s[1..]));
      CharReads(s[0], UnitsOf(Escapes(s[1..])));
    }
  }

  // ---------------------------------------------------------------- the scanner's tables

  /** A hexadecimal digit in either case. */
  function Digit(d: nat, upper: bool): Unit
    requires d < 16
  {
    if d < 10 then 48 + d else (if upper then 55 else 87) + d
  }

  lemma DigitReads(d: nat, upper: bool)
    requires d < 16
    ensures HexValue(Digit(d, upper)) == Some(d)
  {
  }

  lemma Hexadecimal(n: nat)
    requires n < 0x1_0000
    ensures n / 0x1000 < 16 && ((n / 0x1000 * 16 + n / 0x100 % 16) * 16 + n / 0x10 % 16) * 16 + n % 16 == n
  {
    assert n / 0x100 == n / 0x1000 * 16 + n / 0x100 % 16;
    assert n / 0x10 == n / 0x100 * 16 + n / 0x10 % 16;
  }

  /** Four digits stand for their number, whatever the case of each. */
  lemma HexMeaning(n: Unit, a: bool, b: bool, c: bool, d: bool)
    ensures n / 0x1000 < 16
    ensures var digits: Text := [Digit(n / 0x1000, a), Digit(n / 0x100 % 16, b), Digit(n / 0x10 % 16, c), Digit(n % 16, d)];
            HexDigits(digits) && HexUnit(digits) == n
  {
    Hexadecimal(n);
    DigitReads(n / 0x1000, a);
    DigitReads(n / 0x100 % 16, b);
    DigitReads(n / 0x10 % 16, c);
    DigitReads(n % 16, d);
  }

  /** Nothing else is a digit. */
  lemma DigitsOnly(u: Unit)
    ensures HexValue(u).Some? <==> exists d: nat, upper :: d < 16 && u == Digit(d, upper)
  {
    if HexValue(u).Some? {
      assert u == Digit(HexValue(u).value, false) || u == Digit(HexValue(u).value, true);
    }
  }

  /** White space is the same to the scanner, on code units, as to `trim`, on characters. */
  lemma SpaceIsSpace(c: char)
    requires c as int < 0x1_0000
    ensures Space(c as int) <==> IsSpace(c)
  {
  }

  // ---------------------------------------------------------------- the printer's tables

  /** The scalars as JSON texts; what JSON cannot express is null, and nothing at all is undefined. */
  lemma ScalarTexts()
    ensures StableJson(Bool(true)) == "true" && StableJson(Bool(false)) == "false"
    ensures StableJson(Null) == "null" && StableJson(NotFinite) == "null" && StableJson(Undefined) == "undefined"
  {
  }

  /** Lists and objects are bracketed. */
  lemma BracketTexts(items: seq<Json>, members: seq<Member>)
    ensures var list := StableJson(Arr(items)); |list| >= 2 && list[0] == '[' && list[|list| - 1] == ']'
    ensures var text := StableJson(Obj(members)); |text| >= 2 && text[0] == '{' && text[|text| - 1] == '}'
  {
  }

  /** Code units compared one after the other. */
  predicate UnitsBefore(s: Text, t: Text) {
    t != [] && (s == [] || s[0] < t[0] || (s[0] == t[0] && UnitsBefore(s[1..], t[1..])))
  }

  /** Two characters sort by their code units, where they differ. */
  lemma {:induction false} SortsByUnits(c: char, d: char)
    ensures Units(c) < Units(d) <==> UnitsBefore(UnitsOfChar(c), UnitsOfChar(d))
  {
    var s, t := UnitsOfChar(c), UnitsOfChar(d);
    assert UnitsBefore(s, t) <==> s[0] < t[0] || (s[0] == t[0] && UnitsBefore(s[1..], t[1..]));
    if |s| == 2 && |t| == 2 {
      assert s[1..] == [s[1]] && t[1..] == [t[1]] && s[1..][1..] == [] && t[1..][1..] == [];
      assert UnitsBefore([s[1]], [t[1]]) <==> s[1] < t[1];
    } else if |s| == 1 {
      assert s[1..] == [];
    } else {
      assert t[1..] == [];
    }
  }
}
