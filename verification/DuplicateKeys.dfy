/**
 * The scanner that refuses JSON objects naming a member twice, on texts of UTF-16 code units; and
 * the trees of JSON values, printed with any white space, on which its answer is exact.
 */
module DuplicateKeys {
  import opened Prelude

  type Unit = u: int | 0 <= u < 0x1_0000
  type Text = seq<Unit>

  datatype JsonError = InvalidJson | DuplicateKey

  // ---------------------------------------------------------------- the scanner on positions

  predicate Is(raw: Text, i: nat, c: char) {
    i < |raw| && raw[i] == c as int
  }

  /** The class `\s` on one code unit. */
  predicate Space(u: Unit) {
    || 0x09 <= u <= 0x0D || u == 0x20 || u == 0xA0 || u == 0x1680 || 0x2000 <= u <= 0x200A
    || u == 0x2028 || u == 0x2029 || u == 0x202F || u == 0x205F || u == 0x3000 || u == 0xFEFF
  }

  function SkipSpace(raw: Text, i: nat): (j: nat)
    requires i <= |raw|
    ensures i <= j <= |raw|
    decreases |raw| - i
  {
    if i < |raw| && Space(raw[i]) then SkipSpace(raw, i + 1) else i
  }

  predicate EndsScalar(u: Unit) {
    Space(u) || u == ',' as int || u == ']' as int || u == '}' as int
  }

  function ScalarEnd(raw: Text, i: nat): (j: nat)
    requires i <= |raw|
    ensures i <= j <= |raw|
    decreases |raw| - i
  {
    if i < |raw| && !EndsScalar(raw[i]) then ScalarEnd(raw, i + 1) else i
  }

  /** The position after the closing quote; a backslash hides whatever follows it. */
  function StringEnd(raw: Text, i: nat): (r: Result<nat, JsonError>)
    ensures r.Ok? ==> i < r.value <= |raw| && raw[r.value - 1] == '"' as int
    decreases |raw| - i
  {
    if i >= |raw| then Err(InvalidJson)
    else if raw[i] == '\\' as int then StringEnd(raw, i + 2)
    else if raw[i] == '"' as int then Ok(i + 1)
    else StringEnd(raw, i + 1)
  }

  function HexValue(u: Unit): (r: Option<nat>)
    ensures r.Some? ==> r.value < 16
  {
    if '0' as int <= u <= '9' as int then Some(u - '0' as int)
    else if 'a' as int <= u <= 'f' as int then Some(u - 'a' as int + 10)
    else if 'A' as int <= u <= 'F' as int then Some(u - 'A' as int + 10)
    else None
  }

  predicate HexDigits(s: Text) {
    |s| == 4 && HexValue(s[0]).Some? && HexValue(s[1]).Some? && HexValue(s[2]).Some? && HexValue(s[3]).Some?
  }

  function HexUnit(s: Text): Unit
    requires HexDigits(s)
  {
    ((HexValue(s[0]).value * 16 + HexValue(s[1]).value) * 16 + HexValue(s[2]).value) * 16 + HexValue(s[3]).value
  }

  const ShortEscapes: map<Unit, Unit> := map[
    '"' as int := '"' as int, '\\' as int := '\\' as int, '/' as int := '/' as int, 'b' as int := 8,
    'f' as int := 12, 'n' as int := 10, 'r' as int := 13, 't' as int := 9]

  /** What JSON.parse makes of the inside of a string literal (section 7 of RFC 8259); None is a syntax error. */
  function Unescape(body: Text): Option<Text> {
    if body == [] then Some([])
    else if body[0] < 0x20 || body[0] == '"' as int then None
    else if body[0] != '\\' as int then Prepend(body[0], Unescape(body[1..]))
    else if |body| >= 2 && body[1] in ShortEscapes then Prepend(ShortEscapes[body[1]], Unescape(body[2..]))
    else if |body| >= 6 && body[1] == 'u' as int && HexDigits(body[2..6]) then Prepend(HexUnit(body[2..6]), Unescape(body[6..]))
    else None
  }

  function Prepend(u: Unit, rest: Option<Text>): Option<Text> {
    match rest
    case Some(text) => Some([u] + text)
    case None => None
  }

  datatype Scanned = Scanned(end: nat, name: Text)

  function ScanString(raw: Text, i: nat): (r: Result<Scanned, JsonError>)
    ensures r.Ok? ==> i < r.value.end <= |raw|
  {
    var end :- StringEnd(raw, i + 1);
    match Unescape(raw[i + 1..end - 1])
    case Some(name) => Ok(Scanned(end, name))
    case None => Err(InvalidJson)
  }

  function ScanValue(raw: Text, i: nat): (r: Result<nat, JsonError>)
    requires i <= |raw|
    ensures r.Ok? ==> i < r.value <= |raw|
    decreases |raw| - i, 0
  {
    var j := SkipSpace(raw, i);
    if Is(raw, j, '{') then ScanObject(raw, j + 1)
    else if Is(raw, j, '[') then ScanArray(raw, j + 1)
    else if Is(raw, j, '"') then
      var scanned :- ScanString(raw, j);
      Ok(scanned.end)
    else
      var end := ScalarEnd(raw, j);
      if end == j then Err(InvalidJson) else Ok(end)
  }

  /** The rest of an object after its opening brace. */
  function ScanObject(raw: Text, i: nat): (r: Result<nat, JsonError>)
    requires i <= |raw|
    ensures r.Ok? ==> i < r.value <= |raw|
    decreases |raw| - i, 4
  {
    var j := SkipSpace(raw, i);
    if Is(raw, j, '}') then Ok(j + 1) else ScanMembers(raw, j, {})
  }

  /** A value and the white space after it. */
  function ScanPadded(raw: Text, i: nat): (r: Result<nat, JsonError>)
    requires i <= |raw|
    ensures r.Ok? ==> i < r.value <= |raw|
    decreases |raw| - i, 1
  {
    var end :- ScanValue(raw, i);
    Ok(SkipSpace(raw, end))
  }

  /** One member up to what separates it from the next, given the names already seen in this object. */
  function ScanMember(raw: Text, i: nat, keys: set<Text>): (r: Result<Scanned, JsonError>)
    requires i <= |raw|
    ensures r.Ok? ==> i < r.value.end <= |raw|
    decreases |raw| - i, 2
  {
    var j := SkipSpace(raw, i);
    if !Is(raw, j, '"') then Err(InvalidJson)
    else
      var key :- ScanString(raw, j);
      if key.name in keys then Err(DuplicateKey)
      else
        var colon := SkipSpace(raw, key.end);
        if !Is(raw, colon, ':') then Err(InvalidJson)
        else
          var end :- ScanPadded(raw, colon + 1);
          Ok(Scanned(end, key.name))
  }

  function ScanMembers(raw: Text, i: nat, keys: set<Text>): (r: Result<nat, JsonError>)
    requires i <= |raw|
    ensures r.Ok? ==> i < r.value <= |raw|
    decreases |raw| - i, 3
  {
    var member :- ScanMember(raw, i, keys);
    if Is(raw, member.end, '}') then Ok(member.end + 1)
    else if !Is(raw, member.end, ',') then Err(InvalidJson)
    else ScanMembers(raw, member.end + 1, keys + {member.name})
  }

  function ScanArray(raw: Text, i: nat): (r: Result<nat, JsonError>)
    requires i <= |raw|
    ensures r.Ok? ==> i < r.value <= |raw|
    decreases |raw| - i, 3
  {
    var j := SkipSpace(raw, i);
    if Is(raw, j, ']') then Ok(j + 1) else ScanItems(raw, j)
  }

  function ScanItems(raw: Text, i: nat): (r: Result<nat, JsonError>)
    requires i <= |raw|
    ensures r.Ok? ==> i < r.value <= |raw|
    decreases |raw| - i, 2
  {
    var next :- ScanPadded(raw, i);
    if Is(raw, next, ']') then Ok(next + 1)
    else if !Is(raw, next, ',') then Err(InvalidJson)
    else ScanItems(raw, next + 1)
  }

  function Check(raw: Text): Result<(), JsonError> {
    var end :- ScanValue(raw, 0);
    if SkipSpace(raw, end) == |raw| then Ok(()) else Err(InvalidJson)
  }

  // ---------------------------------------------------------------- the scanner as it runs

  lemma {:induction false} MembersFrom(raw: Text, i: nat, keys: set<Text>, member: Scanned)
    requires i <= |raw| && ScanMember(raw, i, keys) == Ok(member)
    ensures ScanMembers(raw, i, keys)
            == if Is(raw, member.end, '}') then Ok(member.end + 1)
               else if !Is(raw, member.end, ',') then Err(InvalidJson)
               else ScanMembers(raw, member.end + 1, keys + {member.name})
  {
  }

  /** The scanner's closures over one advancing index; a failure is what they throw. */
  class Scanner {
    const raw: Text
    var index: nat

    constructor (raw: Text)
      ensures this.raw == raw && index == 0
    {
      this.raw := raw;
      index := 0;
    }

    ghost predicate Reached(r: Result<nat, JsonError>, failure: Option<JsonError>)
      reads this
    {
      match r
      case Ok(end) => failure == None && index == end
      case Err(error) => failure == Some(error)
    }

    method Skip()
      requires index <= |raw|
      modifies this`index
      ensures index == SkipSpace(raw, old(index))
    {
      while index < |raw| && Space(raw[index])
        invariant index <= |raw| && SkipSpace(raw, index) == SkipSpace(raw, old(index))
        decreases |raw| - index
      {
        index := index + 1;
      }
    }

    method ParseString() returns (name: Text, failure: Option<JsonError>)
      requires index < |raw|
      modifies this`index
      ensures match ScanString(raw, old(index))
              case Ok(scanned) => failure == None && index == scanned.end && name == scanned.name
              case Err(error) => failure == Some(error)
    {
      var start := index;
      index := index + 1;
      while index < |raw|
        invariant start < index && StringEnd(raw, index) == StringEnd(raw, start + 1)
        decreases |raw| - index
      {
        var character := raw[index];
        index := index + 1;
        if character == '\\' as int {
          index := index + 1;
        } else if character == '"' as int {
          match Unescape(raw[start + 1..index - 1])
          case Some(parsed) => return parsed, None;
          case None => return [], Some(InvalidJson);
        }
      }
      return [], Some(InvalidJson);
    }

    method ParseValue() returns (failure: Option<JsonError>)
      requires index <= |raw|
      modifies this`index
      ensures Reached(ScanValue(raw, old(index)), failure)
      decreases |raw| - index, 1
    {
      Skip();
      if Is(raw, index, '{') {
        failure := ParseObject();
      } else if Is(raw, index, '[') {
        failure := ParseArray();
      } else if Is(raw, index, '"') {
        var _, f := ParseString();
        failure := f;
      } else {
        var start := index;
        while index < |raw| && !EndsScalar(raw[index])
          invariant start <= index <= |raw| && ScalarEnd(raw, index) == ScalarEnd(raw, start)
          decreases |raw| - index
        {
          index := index + 1;
        }
        failure := if start == index then Some(InvalidJson) else None;
      }
    }

    method ParseMember(keys: set<Text>) returns (key: Text, failure: Option<JsonError>)
      requires index <= |raw|
      modifies this`index
      ensures match ScanMember(raw, old(index), keys)
              case Ok(scanned) => failure == None && index == scanned.end && key == scanned.name
              case Err(error) => failure == Some(error)
      decreases |raw| - index, 3
    {
      Skip();
      if !Is(raw, index, '"') { return [], Some(InvalidJson); }
      key, failure := ParseString();
      if failure.Some? { return; }
      if key in keys { return key, Some(DuplicateKey); }
      Skip();
      if !Is(raw, index, ':') { return key, Some(InvalidJson); }
      index := index + 1;
      failure := ParsePadded();
    }

    /** A value and the white space after it. */
    method ParsePadded() returns (failure: Option<JsonError>)
      requires index <= |raw|
      modifies this`index
      ensures Reached(ScanPadded(raw, old(index)), failure)
      decreases |raw| - index, 2
    {
      failure := ParseValue();
      if failure.None? { Skip(); }
    }

    method ParseObject() returns (failure: Option<JsonError>)
      requires index < |raw|
      modifies this`index
      ensures Reached(ScanObject(raw, old(index) + 1), failure)
      decreases |raw| - index, 0
    {
      index := index + 1;
      Skip();
      if Is(raw, index, '}') {
        index := index + 1;
        return None;
      }
      failure := ParseMembers();
    }

    /** The members of an object up to its closing brace. */
    method ParseMembers() returns (failure: Option<JsonError>)
      requires index <= |raw|
      modifies this`index
      ensures Reached(ScanMembers(raw, old(index), {}), failure)
      decreases |raw| - index, 4
    {
      ghost var start, whole := index, ScanMembers(raw, index, {});
      var keys: set<Text> := {};
      while true
        invariant start <= index <= |raw| && ScanMembers(raw, index, keys) == whole
        decreases |raw| - index
      {
        ghost var at := index;
        var key, failed := ParseMember(keys);
        if failed.Some? { return failed; }
        MembersFrom(raw, at, keys, Scanned(index, key));
        if Is(raw, index, '}') {
          index := index + 1;
          return None;
        }
        if !Is(raw, index, ',') { return Some(InvalidJson); }
        index := index + 1;
        keys := keys + {key};
      }
    }

    method ParseArray() returns (failure: Option<JsonError>)
      requires index < |raw|
      modifies this`index
      ensures Reached(ScanArray(raw, old(index) + 1), failure)
      decreases |raw| - index, 0
    {
      index := index + 1;
      ghost var start, whole := index, ScanArray(raw, index);
      Skip();
      if Is(raw, index, ']') {
        index := index + 1;
        return None;
      }
      while true
        invariant start <= index <= |raw| && ScanItems(raw, index) == whole
        decreases |raw| - index
      {
        failure := ParsePadded();
        if failure.Some? { return; }
        if Is(raw, index, ']') {
          index := index + 1;
          return None;
        }
        if !Is(raw, index, ',') { return Some(InvalidJson); }
        index := index + 1;
      }
    }
  }

  method AssertNoDuplicateJsonKeys(raw: Text) returns (r: Result<(), JsonError>)
    ensures r == Check(raw)
  {
    var scanner := new Scanner(raw);
    var failure := scanner.ParseValue();
    if failure.Some? { return Err(failure.value); }
    scanner.Skip();
    return if scanner.index == |raw| then Ok(()) else Err(InvalidJson);
  }
}
