/**
 * Capability ids for MCP tools, and the wire aliases under which providers see tool names.
 */
module CapabilityIds {
  import opened Prelude

  const MAX_CAPABILITY_ID_CHARS := 60

  datatype Tool = Tool(serverId: string, toolName: string)

  /** Lower-casing, and the first eight hexadecimal digits of a digest, come from outside. */
  datatype Env = Env(lower: string -> string, digest: Tool -> string)

  predicate Hex8(s: string) {
    |s| == 8 && forall c <- s :: '0' <= c <= '9' || 'a' <= c <= 'f'
  }

  // ---------------------------------------------------------------- segments

  predicate Plain(c: char) {
    'a' <= c <= 'z' || '0' <= c <= '9' || c == '-'
  }

  /** Other characters become underscores, runs of which collapse; `last` is the character before. */
  function Collapse(s: string, last: char): string
    decreases |s|
  {
    if s == "" then ""
    else
      var c := if Plain(s[0]) then s[0] else '_';
      (if c == '_' && last == '_' then "" else [c]) + Collapse(s[1..], c)
  }

  function TrimEnd(s: string): string {
    if s != "" && s[|s| - 1] == '_' then TrimEnd(s[..|s| - 1]) else s
  }

  /** Leading underscores are dropped by collapsing into an imaginary one. */
  function SanitizeSegment(env: Env, value: string): string {
    TrimEnd(Collapse(env.lower(value), '_'))
  }

  function OrElse(s: string, fallback: string): string {
    if s == "" then fallback else s
  }

  function FullBase(env: Env, tool: Tool): string {
    "mcp." + OrElse(SanitizeSegment(env, tool.serverId), "server") + "." + OrElse(SanitizeSegment(env, tool.toolName), "tool")
  }

  predicate Shortened(env: Env, tool: Tool) {
    |FullBase(env, tool)| > MAX_CAPABILITY_ID_CHARS
  }

  function Base(env: Env, tool: Tool): string {
    if Shortened(env, tool) then FullBase(env, tool)[..MAX_CAPABILITY_ID_CHARS - 9] + "_" + env.digest(tool) else FullBase(env, tool)
  }

  // ---------------------------------------------------------------- what an id looks like

  /** ASCII lower-case letters, digits and the hyphen, by their codes. */
  predicate WordChar(c: char) {
    97 <= c as int <= 122 || 48 <= c as int <= 57 || c as int == 45
  }

  /** The runs of word characters in a text; `word` is the run it continues. */
  function Words(s: string, word: string): seq<string>
    decreases |s|
  {
    if s == "" then (if word == "" then [] else [word])
    else if WordChar(s[0]) then Words(s[1..], word + [s[0]])
    else (if word == "" then [] else [word]) + Words(s[1..], "")
  }

  function Joined(words: seq<string>): string {
    if words == [] then "" else if |words| == 1 then words[0] else words[0] + "_" + Joined(words[1..])
  }

  lemma PlainIsWord(c: char)
    ensures Plain(c) <==> WordChar(c)
    ensures WordChar(c) ==> c != '_'
  {
  }

  lemma {:induction false} TrimEndAppend(a: string, b: string)
    ensures TrimEnd(a + b) == if TrimEnd(b) != "" then a + TrimEnd(b) else TrimEnd(a)
    decreases |b|
  {
    if b == "" {
      assert a + b == a;
    } else if b[|b| - 1] == '_' {
      TrimEndAppend(a, b[..|b| - 1]);
      assert (a + b)[..|a + b| - 1] == a + b[..|b| - 1];
    }
  }

  lemma {:induction false} WordsNotEmpty(s: string, word: string)
    ensures Words(s, word) == [] ==> word == ""
    ensures forall w <- Words(s, word) :: w != ""
    decreases |s|
  {
    if s != "" {
      if WordChar(s[0]) { WordsNotEmpty(s[1..], word + [s[0]]); } else { WordsNotEmpty(s[1..], ""); }
    }
  }

  /** The character before the rest of a text: the end of a word, or a separator. */
  function LastOf(word: string): char {
    if word == "" then '_' else word[|word| - 1]
  }

  lemma {:induction false} CollapseStep(s: string, last: char)
    requires s != "" && (last == '_' || WordChar(last))
    ensures WordChar(s[0]) ==> Collapse(s, last) == [s[0]] + Collapse(s[1..], s[0])
    ensures !WordChar(s[0]) ==> Collapse(s, last) == (if last == '_' then "" else "_") + Collapse(s[1..], '_')
  {
    PlainIsWord(s[0]);
    PlainIsWord(last);
  }

  lemma {:induction false} TrimEndWord(word: string)
    requires word != "" && WordChar(word[|word| - 1])
    ensures TrimEnd(word) == word && TrimEnd(word + "_") == word
  {
    PlainIsWord(word[|word| - 1]);
    assert (word + "_")[..|word|] == word;
  }

  /** A word that is going on, and the rest of the text collapsed behind it. */
  lemma {:induction false} CollapsedWords(s: string, word: string)
    requires forall c <- word :: WordChar(c)
    ensures TrimEnd(word + Collapse(s, LastOf(word))) == Joined(Words(s, word))
    decreases |s|
  {
    assert word != "" ==> word[|word| - 1] in word;
    if s == "" {
      assert word + "" == word;
      if word != "" { TrimEndWord(word); }
    } else {
      CollapseStep(s, LastOf(word));
      if WordChar(s[0]) {
        CollapsedWords(s[1..], word + [s[0]]);
        Assoc(word, [s[0]], Collapse(s[1..], s[0]));
      } else {
        CollapsedWords(s[1..], "");
        WordsNotEmpty(s[1..], "");
        WordEnds(word, Collapse(s[1..], '_'), Words(s[1..], ""));
      }
    }
  }

  lemma {:induction false} WordEnds(word: string, rest: string, more: seq<string>)
    requires (word != "" ==> WordChar(word[|word| - 1])) && TrimEnd("" + rest) == Joined(more) && forall w <- more :: w != ""
    ensures TrimEnd(word + ((if LastOf(word) == '_' then "" else "_") + rest)) == Joined((if word == "" then [] else [word]) + more)
  {
    assert "" + rest == rest && [] + more == more;
    if word != "" {
      PlainIsWord(word[|word| - 1]);
      TrimEndWord(word);
      Assoc(word, "_", rest);
      TrimEndAppend(word + "_", rest);
      JoinedMore(word, more);
    }
  }

  lemma {:induction false} JoinedMore(word: string, more: seq<string>)
    requires forall w <- more :: w != ""
    ensures Joined([word] + more) == if more == [] then word else word + "_" + Joined(more)
    ensures more != [] <==> Joined(more) != ""
  {
    assert more != [] ==> ([word] + more)[1..] == more;
    assert more != [] ==> more[0] in more;
  }

  /** A segment is the words of the lower-cased name, joined by single underscores. */
  lemma {:induction false} SegmentIsWords(env: Env, value: string)
    ensures SanitizeSegment(env, value) == Joined(Words(env.lower(value), ""))
  {
    CollapsedWords(env.lower(value), "");
    assert "" + Collapse(env.lower(value), '_') == Collapse(env.lower(value), '_');
  }

  /** A segment of an id: the words of a name, or a word for none. */
  function Named(env: Env, name: string, fallback: string): string {
    if Words(env.lower(name), "") == [] then fallback else Joined(Words(env.lower(name), ""))
  }

  lemma {:induction false} SegmentMeaning(env: Env, name: string, fallback: string)
    ensures OrElse(SanitizeSegment(env, name), fallback) == Named(env, name, fallback)
  {
    SegmentIsWords(env, name);
    WordsNotEmpty(env.lower(name), "");
    JoinedMore("", Words(env.lower(name), ""));
  }

  /** A tool's base id: server, then tool, by their words; cut to sixty characters with a digest of both. */
  lemma {:induction false} BaseMeaning(env: Env, tool: Tool, full: string)
    requires Hex8(env.digest(tool)) && full == "mcp." + Named(env, tool.serverId, "server") + "." + Named(env, tool.toolName, "tool")
    ensures |full| <= 60 ==> Base(env, tool) == full
    ensures |full| > 60 ==> Base(env, tool) == full[..51] + "_" + env.digest(tool) && |Base(env, tool)| == 60
  {
    SegmentMeaning(env, tool.serverId, "server");
    SegmentMeaning(env, tool.toolName, "tool");
  }

  // ---------------------------------------------------------------- unique ids

  /** The n-th candidate for an id: the base, then the base with suffix 2, 3 and so on. */
  function Candidate(base: string, n: nat): string {
    if n <= 1 then base else base + "_" + Decimal(n)
  }

  lemma CandidatesDiffer(base: string, m: nat, n: nat)
    requires 1 <= m && 1 <= n && Candidate(base, m) == Candidate(base, n)
    ensures m == n
  {
    var prefix := base + "_";
    assert m > 1 ==> Candidate(base, m)[|prefix|..] == Decimal(m) && |Candidate(base, m)| > |base|;
    assert n > 1 ==> Candidate(base, n)[|prefix|..] == Decimal(n) && |Candidate(base, n)| > |base|;
    if m > 1 && n > 1 { DecimalInjective(m, n); }
  }

  /** The first candidate that is not taken. */
  ghost predicate FirstFree(base: string, used: set<string>, id: string) {
    exists n: nat :: 1 <= n && id == Candidate(base, n) && id !in used && AllTaken(base, used, n)
  }

  predicate AllTaken(base: string, used: set<string>, n: nat) {
    forall m: nat | 1 <= m < n :: Candidate(base, m) in used
  }

  /** The first candidates, a set as large as their number. */
  function Tried(base: string, n: nat): set<string> {
    set m: nat | 1 <= m < n :: Candidate(base, m)
  }

  lemma TriedGrows(base: string, n: nat)
    requires 1 <= n
    ensures Tried(base, n + 1) == Tried(base, n) + {Candidate(base, n)} && Candidate(base, n) !in Tried(base, n)
  {
    forall m: nat | 1 <= m < n ensures Candidate(base, m) != Candidate(base, n) {
      if Candidate(base, m) == Candidate(base, n) { CandidatesDiffer(base, m, n); }
    }
  }

  lemma TriedShrinks(base: string, used: set<string>, n: nat)
    requires 1 <= n && Candidate(base, n) in used
    ensures |used - Tried(base, n + 1)| < |used - Tried(base, n)|
  {
    TriedGrows(base, n);
    assert used - Tried(base, n + 1) == (used - Tried(base, n)) - {Candidate(base, n)};
  }

  /** The suffix search ends: the candidates it has found taken are different members of a finite set. */
  method FindFree(base: string, used: set<string>) returns (id: string)
    ensures FirstFree(base, used, id)
  {
    id := base;
    var suffix := 2;
    while id in used
      invariant suffix >= 2 && id == Candidate(base, suffix - 1) && AllTaken(base, used, suffix - 1)
      decreases |used - Tried(base, suffix - 1)|
    {
      TriedShrinks(base, used, suffix - 1);
      id := base + "_" + Decimal(suffix);
      suffix := suffix + 1;
    }
  }

  function Taken(ids: seq<string>): set<string> {
    set x | x in ids
  }

  ghost predicate Assigned(env: Env, tools: seq<Tool>, ids: seq<string>, i: nat)
    requires i < |ids| && i < |tools|
  {
    FirstFree(Base(env, tools[i]), Taken(ids[..i]), ids[i])
  }

  predicate Distinct(ids: seq<string>) {
    forall i, j | 0 <= i < j < |ids| :: ids[i] != ids[j]
  }

  lemma AssignedStays(env: Env, tools: seq<Tool>, ids: seq<string>, id: string, i: nat)
    requires i < |ids| <= |tools| && Assigned(env, tools, ids, i)
    ensures i < |ids + [id]| && Assigned(env, tools, ids + [id], i)
  {
    assert (ids + [id])[..i] == ids[..i];
  }

  lemma NewStaysDistinct(ids: seq<string>, id: string)
    requires Distinct(ids) && id !in Taken(ids)
    ensures Distinct(ids + [id])
  {
    assert forall i | 0 <= i < |ids| :: ids[i] in Taken(ids);
  }

  /** Every tool gets the first free candidate of its base, so all ids are different. */
  method AssignCapabilityIds(env: Env, tools: seq<Tool>) returns (ids: seq<string>)
    ensures |ids| == |tools| && Distinct(ids)
    ensures forall i: nat | i < |ids| :: Assigned(env, tools, ids, i)
  {
    ids := [];
    var used: set<string> := {};
    for k := 0 to |tools|
      invariant |ids| == k && used == Taken(ids) && Distinct(ids)
      invariant forall i: nat | i < k :: Assigned(env, tools, ids, i)
    {
      var id := FindFree(Base(env, tools[k]), used);
      used := used + {id};
      NewStaysDistinct(ids, id);
      forall i: nat | i < k ensures Assigned(env, tools, ids + [id], i) { AssignedStays(env, tools, ids, id, i); }
      assert (ids + [id])[..k] == ids;
      ids := ids + [id];
    }
  }

  // ---------------------------------------------------------------- wire aliases

  /** A provider's wire name: dots become double underscores. */
  function ToWire(name: string): string {
    if name == "" then "" else (if name[0] == '.' then "__" else [name[0]]) + ToWire(name[1..])
  }

  /** Back again: double underscores, from the left, become dots. */
  function CanonicalToolName(name: string): string
    decreases |name|
  {
    if |name| < 2 then name
    else if name[0] == '_' && name[1] == '_' then "." + CanonicalToolName(name[2..])
    else [name[0]] + CanonicalToolName(name[1..])
  }

  /** No underscore stands before another underscore or a dot. */
  predicate Survives(name: string) {
    forall i | 0 <= i < |name| - 1 :: name[i] == '_' ==> name[i + 1] != '_' && name[i + 1] != '.'
  }

  lemma SurvivesCons(c: char, rest: string)
    ensures Survives([c] + rest) <==> Survives(rest) && (c == '_' && rest != "" ==> rest[0] != '_' && rest[0] != '.')
  {
    var name := [c] + rest;
    if Survives(rest) && (c == '_' && rest != "" ==> rest[0] != '_' && rest[0] != '.') {
      forall i | 0 <= i < |name| - 1 && name[i] == '_' ensures name[i + 1] != '_' && name[i + 1] != '.' {
        if i > 0 { assert rest[i - 1] == name[i] && rest[i] == name[i + 1]; }
      }
    }
    if Survives(name) {
      assert rest != "" ==> name[0] == c && name[0 + 1] == rest[0];
      forall i | 0 <= i < |rest| - 1 && rest[i] == '_' ensures rest[i + 1] != '_' && rest[i + 1] != '.' {
        assert name[i + 1] == rest[i] && name[i + 2] == rest[i + 1];
      }
    }
  }

  /** The round trip through the wire name gives a name back exactly when it survives it. */
  lemma {:induction false} WireRoundTrip(name: string)
    ensures CanonicalToolName(ToWire(name)) == name <==> Survives(name)
    decreases |name|
  {
    if name != "" {
      var c, rest := name[0], name[1..];
      var wire := ToWire(rest);
      assert name == [c] + rest;
      SurvivesCons(c, rest);
      WireRoundTrip(rest);
      WireStarts(rest);
      if c == '.' {
        assert ToWire(name)[2..] == wire;
      } else {
        assert ToWire(name)[1..] == wire;
        if |ToWire(name)| < 2 { assert wire == "" && rest == ""; }
      }
    }
  }

  lemma WireStarts(name: string)
    ensures (ToWire(name) == "" <==> name == "")
    ensures name != "" ==> (ToWire(name)[0] == '_' <==> name[0] == '_' || name[0] == '.')
  {
  }

  // ---------------------------------------------------------------- which capability ids survive the wire

  /** A segment: no double, leading or trailing underscore, and no dot. */
  predicate Segment(s: string) {
    && (forall c <- s :: Plain(c) || c == '_')
    && Survives(s) && (s != "" ==> s[0] != '_' && s[|s| - 1] != '_')
  }

  lemma {:induction false} Collapsed(s: string, last: char)
    ensures var r := Collapse(s, last);
            && (forall c <- r :: Plain(c) || c == '_') && Survives(r)
            && (r != "" && last == '_' ==> r[0] != '_')
    decreases |s|
  {
    if s != "" {
      var c := if Plain(s[0]) then s[0] else '_';
      Collapsed(s[1..], c);
      var rest := Collapse(s[1..], c);
      SurvivesCons(c, rest);
      if rest != "" { assert rest[0] in rest; }
    }
  }

  lemma {:induction false} Trimmed(s: string)
    requires (forall c <- s :: Plain(c) || c == '_') && Survives(s) && (s != "" ==> s[0] != '_')
    ensures Segment(TrimEnd(s))
    decreases |s|
  {
    if s != "" && s[|s| - 1] == '_' { Trimmed(s[..|s| - 1]); }
  }

  lemma Sanitized(env: Env, value: string)
    ensures Segment(SanitizeSegment(env, value))
  {
    Collapsed(env.lower(value), '_');
    Trimmed(Collapse(env.lower(value), '_'));
  }

  lemma SurvivesJoin(s: string, t: string)
    requires Survives(s) && Survives(t)
    requires s != "" && t != "" && s[|s| - 1] == '_' ==> t[0] != '_' && t[0] != '.'
    ensures Survives(s + t)
  {
  }

  lemma SurvivesPart(s: string, n: nat)
    requires Survives(s) && n <= |s|
    ensures Survives(s[..n])
  {
  }

  predicate EndsPlain(s: string) {
    s != "" && s[|s| - 1] != '_'
  }

  lemma FullBaseSurvives(env: Env, tool: Tool)
    ensures Survives(FullBase(env, tool)) && EndsPlain(FullBase(env, tool))
  {
    Sanitized(env, tool.serverId);
    Sanitized(env, tool.toolName);
    var server := OrElse(SanitizeSegment(env, tool.serverId), "server");
    var name := OrElse(SanitizeSegment(env, tool.toolName), "tool");
    assert Survives("mcp.") && Survives(".") && Survives("server") && Survives("tool");
    SurvivesJoin("mcp.", server);
    SurvivesJoin("mcp." + server, ".");
    SurvivesJoin("mcp." + server + ".", name);
  }

  lemma {:induction false} DigitsSurvive(s: string)
    requires forall c <- s :: c != '_'
    ensures Survives(s)
  {
    assert forall i | 0 <= i < |s| :: s[i] in s;
  }

  /** Suffixing with an underscore and text without underscores: survival is decided where they meet. */
  lemma Suffixed(base: string, suffix: string)
    requires Survives(base) && base != "" && suffix != "" && forall c <- suffix :: c != '_' && c != '.'
    ensures Survives(base + "_" + suffix) <==> EndsPlain(base)
    ensures EndsPlain(base + "_" + suffix)
  {
    var n, id := |base|, base + "_" + suffix;
    DigitsSurvive(suffix);
    assert suffix[0] in suffix && suffix[|suffix| - 1] in suffix;
    assert id[n - 1] == base[n - 1] && id[n] == '_';
    SurvivesJoin("_", suffix);
    if EndsPlain(base) {
      SurvivesJoin(base, "_" + suffix);
      assert id == base + ("_" + suffix);
    }
  }

  /**
   * Which ids survive the wire: every one not shortened for length, whatever suffix made it
   * unique; and a shortened one exactly when it was not cut behind an underscore.
   */
  lemma CapabilityIdSurvives(env: Env, tool: Tool, n: nat)
    requires Hex8(env.digest(tool)) && 1 <= n
    ensures CanonicalToolName(ToWire(Candidate(Base(env, tool), n))) == Candidate(Base(env, tool), n)
            <==> (Shortened(env, tool) ==> FullBase(env, tool)[MAX_CAPABILITY_ID_CHARS - 10] != '_')
  {
    var full, base, id := FullBase(env, tool), Base(env, tool), Candidate(Base(env, tool), n);
    FullBaseSurvives(env, tool);
    WireRoundTrip(id);
    if Shortened(env, tool) {
      var cut := full[..MAX_CAPABILITY_ID_CHARS - 9];
      SurvivesPart(full, MAX_CAPABILITY_ID_CHARS - 9);
      assert forall c <- env.digest(tool) :: c != '_' && c != '.';
      Suffixed(cut, env.digest(tool));
    }
    if n > 1 {
      if Survives(base) {
        Suffixed(base, Decimal(n));
      } else {
        assert id == base + ("_" + Decimal(n));
        NotSurviving(base, "_" + Decimal(n));
      }
    }
  }

  lemma NotSurviving(s: string, t: string)
    requires !Survives(s)
    ensures !Survives(s + t)
  {
    var i :| 0 <= i < |s| - 1 && s[i] == '_' && (s[i + 1] == '_' || s[i + 1] == '.');
    assert (s + t)[i] == s[i] && (s + t)[i + 1] == s[i + 1];
  }

  // ---------------------------------------------------------------- provider aliases

  datatype Aliases = Aliases(wireByCanonical: map<string, string>, canonicalByWire: map<string, string>)

  function ToProviderToolName(name: string, a: Aliases): string {
    if name in a.wireByCanonical then a.wireByCanonical[name] else ToWire(name)
  }

  function FromProviderToolName(name: string, a: Aliases): string {
    if name in a.canonicalByWire then a.canonicalByWire[name] else name
  }

  ghost predicate Collides(names: seq<string>) {
    exists x, y :: x in names && y in names && x != y && ToWire(x) == ToWire(y)
  }

  ghost predicate AliasesOf(names: seq<string>, a: Aliases) {
    && (forall x <- names :: x in a.wireByCanonical && a.wireByCanonical[x] == ToWire(x))
    && (forall x <- names :: ToWire(x) in a.canonicalByWire && a.canonicalByWire[ToWire(x)] == x)
    && (forall w <- a.canonicalByWire :: a.canonicalByWire[w] in names && ToWire(a.canonicalByWire[w]) == w)
  }

  /** Aliases are refused exactly when two different names share a wire name. */
  method ProviderToolNameAliases(names: seq<string>) returns (r: Option<Aliases>)
    ensures r.None? <==> Collides(names)
    ensures r.Some? ==> AliasesOf(names, r.value)
  {
    var a := Aliases(map[], map[]);
    for k := 0 to |names|
      invariant AliasesOf(names[..k], a)
    {
      var name := names[k];
      var wire := ToWire(name);
      assert names[..k + 1] == names[..k] + [name];
      if wire in a.canonicalByWire && a.canonicalByWire[wire] != name {
        assert a.canonicalByWire[wire] in names[..k] && name in names;
        return None;
      }
      a := Aliases(a.wireByCanonical[name := wire], a.canonicalByWire[wire := name]);
    }
    assert names[..|names|] == names;
    return Some(a);
  }

  /** Through the aliases every name comes back, also one that does not survive the plain round trip. */
  lemma AliasRoundTrip(names: seq<string>, a: Aliases, name: string)
    requires AliasesOf(names, a) && name in names
    ensures FromProviderToolName(ToProviderToolName(name, a), a) == name
  {
  }
}
