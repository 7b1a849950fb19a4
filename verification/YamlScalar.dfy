/** The scalars of the settings file: quoting, numbers, switches, and exactly which strings read back. */
module YamlScalar {
  import opened Bytes
  import opened YamlText

  // --- reading ---

  /** "key: value", split at the first colon. */
  function SplitKv(s: string): Option<(string, string)>
  {
    var i := Find(s, ':');
    if i == |s| then None else Some((TrimSpace(s[..i]), TrimSpace(s[i + 1..])))
  }

  /** Drops one pair of surrounding double quotes; escapes are not interpreted. */
  function Unquote(text: string): string
  {
    var s := TrimSpace(text);
    if |s| >= 2 && s[0] == '"' && s[|s| - 1] == '"' then s[1..|s| - 1] else s
  }

  function ParseBool(s: string): Option<bool>
  {
    if s in ["1", "t", "T", "true", "TRUE", "True"] then Some(true)
    else if s in ["0", "f", "F", "false", "FALSE", "False"] then Some(false)
    else None
  }

  const INT64_END := 0x8000_0000_0000_0000

  predicate Digits(s: string)
  {
    s != "" && forall i :: 0 <= i < |s| ==> '0' <= s[i] <= '9'
  }

  function Value(s: string): nat
    requires s != "" ==> Digits(s)
  {
    if s == "" then 0 else 10 * Value(s[..|s| - 1]) + (s[|s| - 1] as int - '0' as int)
  }

  /** strconv.Atoi on a 64-bit int: an optional sign, then decimal digits, in range. */
  function Atoi(s: string): Option<int>
  {
    var signed := s != "" && s[0] in "+-";
    var digits := if signed then s[1..] else s;
    if !Digits(digits) then None
    else
      var n: int := if signed && s[0] == '-' then 0 - Value(digits) else Value(digits);
      if -INT64_END <= n < INT64_END then Some(n) else None
  }

  /** A finite float64 other than negative zero, by its bits. */
  datatype Number = Number(bits: nat)

  const ZERO := Number(0)

  /** The library's FormatFloat(x, 'f', -1, 64) and ParseFloat(s, 64). */
  datatype FloatText = FloatText(format: Number -> string, parse: string -> Option<Number>)

  predicate Numeral(s: string)
  {
    s != "" && forall i :: 0 <= i < |s| ==> '0' <= s[i] <= '9' || s[i] == '.' || s[i] == '-'
  }

  /** What FormatFloat promises: a numeral that ParseFloat reads back. */
  ghost predicate Faithful(ft: FloatText)
  {
    forall x :: Numeral(ft.format(x)) && ft.parse(ft.format(x)) == Some(x)
  }

  // --- writing ---

  const SPECIAL: string := " :#\"'{}[],&*?|-<>"

  predicate NeedsQuotes(s: string)
  {
    s == "" || exists c :: c in s && c in SPECIAL
  }

  function Hex(n: nat): char
    requires n < 16
  {
    "0123456789abcdef"[n]
  }

  /** strconv.Quote, character by character; characters above ASCII stand for themselves. */
  function EscapeChar(c: char): string
  {
    if c == '"' then "\\\"" else if c == '\\' then "\\\\"
    else if c == '\U{7}' then "\\a" else if c == '\U{8}' then "\\b" else if c == '\U{c}' then "\\f"
    else if c == '\n' then "\\n" else if c == '\r' then "\\r" else if c == '\t' then "\\t"
    else if c == '\U{b}' then "\\v"
    else if c < ' ' || c == '\U{7f}' then "\\x" + [Hex(c as int / 16), Hex(c as int % 16)]
    else [c]
  }

  function Escape(s: string): string
  {
    if s == "" then "" else EscapeChar(s[0]) + Escape(s[1..])
  }

  function Quote(s: string): string
  {
    "\"" + Escape(s) + "\""
  }

  function YamlStr(s: string): string
  {
    if NeedsQuotes(s) then Quote(s) else s
  }

  method YamlString(s: string) returns (r: string)
    ensures r == YamlStr(s)
  {
    if s == "" {
      return "\"\"";
    }
    for i := 0 to |s|
      invariant forall j :: 0 <= j < i ==> s[j] !in SPECIAL
    {
      if s[i] in SPECIAL {
        return Quote(s);
      }
    }
    return s;
  }

  function Itoa(n: nat): string
  {
    if n < 10 then [(n + '0' as int) as char] else Itoa(n / 10) + [(n % 10 + '0' as int) as char]
  }

  // --- what survives being written and read ---

  predicate Printable(s: string)
  {
    forall i :: 0 <= i < |s| ==> ' ' <= s[i] <= '~'
  }

  /** Printable strings that read back: a quote or a backslash must not end up inside quotes. */
  predicate Survives(s: string)
  {
    Printable(s) && (('"' in s || '\\' in s) ==> !NeedsQuotes(s))
  }

  predicate KeyText(key: string)
  {
    key != "" && forall i :: 0 <= i < |key| ==> 'a' <= key[i] <= 'z' || '0' <= key[i] <= '9' || key[i] == '_'
  }

  lemma SpacesAre(c: char)
    ensures c in SPACES && c < '\U{7f}' ==> c <= ' '
    ensures ' ' in SPACES
  {
    assert SPACES[5] == ' ';
  }

  /** Text with no space character at either end is its own trimming. */
  lemma TrimTight(s: string)
    requires Tight(s, SPACES)
    ensures TrimSpace(s) == s && TrimSpace(" " + s) == s
  {
    hide SPACES;
    SpacesAre(' ');
    var t := " " + s;
    assert t[1..] == s;
    if s != "" {
      assert t[|t| - 1] == s[|s| - 1];
    } else {
      assert t[..0] == "";
      assert TrimRight(t[..|t| - 1], SPACES) == "";
    }
  }

  lemma SplitField(key: string, value: string)
    requires KeyText(key) && Tight(value, SPACES)
    ensures SplitKv(key + ": " + value) == Some((key, value))
  {
    forall c | c in key
      ensures c !in SPACES && c != ':'
    {
      SpacesAre(c);
    }
    hide SPACES, KeyText;
    var s := key + ": " + value;
    assert s == key + [':'] + (" " + value);
    FindAppend(key, ':', " " + value);
    assert s[..|key|] == key && s[|key| + 1..] == " " + value;
    assert Tight(key, SPACES);
    TrimTight(key);
    TrimTight(value);
  }

  lemma {:induction false} EscapeLength(s: string)
    ensures |Escape(s)| >= |s|
    ensures '"' in s || '\\' in s ==> |Escape(s)| > |s|
  {
    if s != "" {
      EscapeLength(s[1..]);
    }
  }

  lemma {:induction false} EscapeNothing(s: string)
    requires Printable(s) && '"' !in s && '\\' !in s
    ensures Escape(s) == s
  {
    if s != "" {
      assert s[0] in s;
      EscapeNothing(s[1..]);
      assert EscapeChar(s[0]) == [s[0]];
      assert [s[0]] + s[1..] == s;
    }
  }

  lemma {:induction false} EscapePrintable(s: string)
    requires Printable(s)
    ensures Printable(Escape(s))
  {
    if s != "" {
      EscapePrintable(s[1..]);
    }
  }

  lemma {:induction false} CommentFree(s: string, inQuote: bool)
    requires '#' !in s || (inQuote && s != "" && '"' !in s[..|s| - 1])
    ensures CommentAt(s, inQuote) == |s|
  {
    if s != "" {
      if |s| > 1 {
        assert s[..|s| - 1][0] == s[0];
        assert s[1..][..|s[1..]| - 1] == s[..|s| - 1][1..];
      }
      if '#' in s && |s| == 1 {
        assert s[0] == '#';
      } else {
        CommentFree(s[1..], if s[0] == '"' then !inQuote else inQuote);
      }
    }
  }

  /** Text that stands in a value position unharmed: the scanner, the lexer and the trimmer all keep it. */
  predicate ValueText(t: string)
  {
    t != "" && Printable(t) && Tight(t, SPACES) && CommentAt(t, false) == |t|
  }

  /** A surviving string is written as a value the reader keeps and turns back into the string. */
  lemma Reads(s: string)
    requires Survives(s)
    ensures ValueText(YamlStr(s)) && Unquote(YamlStr(s)) == s
  {
    if NeedsQuotes(s) {
      ReadsQuoted(s);
    } else {
      ReadsBare(s);
    }
  }

  lemma ReadsQuoted(s: string)
    requires Printable(s) && '"' !in s && '\\' !in s
    ensures ValueText(Quote(s)) && Unquote(Quote(s)) == s
  {
    hide SPACES, Escape, TrimSpace;
    EscapeNothing(s);
    SpacesAre('"');
    var t := "\"" + s + "\"";
    assert (s + "\"")[..|s|] == s;
    CommentFree(s + "\"", true);
    assert t[1..] == s + "\"" && t[1..|t| - 1] == s;
    TrimTight(t);
  }

  lemma ReadsBare(s: string)
    requires Printable(s) && !NeedsQuotes(s)
    ensures ValueText(s) && Unquote(s) == s
  {
    hide SPACES, SPECIAL, NeedsQuotes, TrimSpace, CommentAt;
    NotSpecial(s);
    CommentFree(s, false);
    SpacesAre(s[0]);
    SpacesAre(s[|s| - 1]);
    TrimTight(s);
  }

  lemma NotSpecial(s: string)
    requires !NeedsQuotes(s)
    ensures s != "" && '#' !in s && ' ' !in s && '"' !in s
  {
    assert SPECIAL[0] == ' ' && SPECIAL[2] == '#' && SPECIAL[3] == '"';
  }

  // --- what comes back of any printable string ---

  /** What the parser is given for a written scalar. */
  function WrittenText(s: string): string
  {
    Kept(YamlStr(s))
  }

  /** What it makes of it. */
  function Returned(s: string): string
  {
    Unquote(WrittenText(s))
  }

  lemma {:induction false} TrimRightEnds(s: string)
    ensures var r := TrimRight(s, " "); r <= s && (r != "" ==> r[|r| - 1] != ' ')
    ensures s != "" && s[0] != ' ' ==> TrimRight(s, " ") != ""
  {
    if s != "" && s[|s| - 1] == ' ' {
      TrimRightEnds(s[..|s| - 1]);
    }
  }

  lemma TightIfNoSpaces(t: string)
    requires Printable(t) && (t != "" ==> t[0] != ' ' && t[|t| - 1] != ' ')
    ensures Tight(t, SPACES)
  {
    hide SPACES;
    if t != "" {
      SpacesAre(t[0]);
      SpacesAre(t[|t| - 1]);
    }
  }

  /** Whatever the string, the parser is given a text that starts with its first character or with a quote. */
  lemma WrittenIsTight(s: string)
    requires Printable(s)
    ensures var t := WrittenText(s);
            && t != "" && t <= YamlStr(s) && Printable(YamlStr(s)) && Printable(t) && Tight(t, SPACES)
  {
    hide SPACES, SPECIAL, Escape;
    var w := YamlStr(s);
    if NeedsQuotes(s) {
      EscapePrintable(s);
    } else {
      NotSpecial(s);
    }
    hide NeedsQuotes;
    assert Printable(w) && w[0] != '#' && w[0] != ' ';
    var cut := w[..CommentAt(w, false)];
    TrimRightEnds(cut);
    TightIfNoSpaces(WrittenText(s));
  }

  lemma SurvivorsReturn(s: string)
    requires Survives(s)
    ensures WrittenText(s) == YamlStr(s) && Returned(s) == s
  {
    hide SPACES, NeedsQuotes, Escape, Unquote;
    Reads(s);
    SpacesAre(' ');
    var w := YamlStr(s);
    assert w[..|w|] == w;
  }

  lemma EmptyReturns()
    ensures Returned("") == ""
  {
    SurvivorsReturn("");
  }

  lemma QuoteStarts(s: string)
    requires s != ""
    ensures |Quote(s)| >= 2 && Quote(s)[0] == '"' && Quote(s)[1] != '"'
  {
    var c := EscapeChar(s[0]);
    assert Escape(s)[0] == c[0];
    assert Quote(s)[1] == c[0];
  }

  lemma UnquotedNotEmpty(t: string)
    requires Tight(t, SPACES) && t != "" && (|t| >= 2 && t[0] == '"' ==> t[1] != '"')
    ensures Unquote(t) != ""
  {
    hide SPACES, TrimSpace;
    TrimTight(t);
  }

  /** Only nothing comes back as nothing. */
  lemma NotEmptyReturns(s: string)
    requires Printable(s) && s != ""
    ensures Returned(s) != ""
  {
    hide SPACES, SPECIAL, NeedsQuotes, Quote, Unquote, WrittenText, Printable;
    WrittenIsTight(s);
    QuoteStarts(s);
    var t := WrittenText(s);
    if !NeedsQuotes(s) {
      NotSpecial(s);
      assert t[0] in s;
    }
    UnquotedNotEmpty(t);
  }

  // --- a string that does not survive is never read back ---

  /** What the reader makes of the value on a raw "key: value" line. */
  function ReadField(raw: string): Option<string>
  {
    var lines := LexLine(raw);
    if lines == [] then None
    else
      var kv := SplitKv(lines[0].content);
      if kv.None? then None else Some(Unquote(kv.value.1))
  }

  function Hashes(s: string): nat
  {
    multiset(s)['#']
  }

  lemma HashesOfSlice(s: string, i: nat, j: nat)
    requires i <= j <= |s|
    ensures Hashes(s[i..j]) <= Hashes(s) && Hashes(s[i..]) <= Hashes(s) && Hashes(s[..j]) <= Hashes(s)
  {
    assert s == s[..i] + s[i..j] + s[j..];
    assert s == s[..i] + s[i..];
    assert s == s[..j] + s[j..];
  }

  lemma {:induction false} HashesOfTrim(s: string, cutset: string)
    ensures Hashes(TrimLeft(s, cutset)) <= Hashes(s)
    ensures Hashes(TrimRight(s, cutset)) <= Hashes(s)
    decreases |s|
  {
    hide Hashes;
    if s != "" {
      HashesOfTrim(s[1..], cutset);
      HashesOfTrim(s[..|s| - 1], cutset);
      HashesOfSlice(s, 1, |s|);
      HashesOfSlice(s, 0, |s| - 1);
    }
  }

  lemma HashesOfTrimSpace(s: string)
    ensures Hashes(TrimSpace(s)) <= Hashes(s)
  {
    hide Hashes, TrimLeft, TrimRight;
    HashesOfTrim(s, SPACES);
    HashesOfTrim(TrimRight(s, SPACES), SPACES);
  }

  lemma HashesOfEscapeChar(c: char)
    requires ' ' <= c <= '~'
    ensures Hashes(EscapeChar(c)) == Hashes([c])
  {
  }

  lemma HashesAppend(a: string, b: string)
    ensures Hashes(a + b) == Hashes(a) + Hashes(b)
  {
  }

  lemma {:induction false} HashesOfEscape(s: string)
    requires Printable(s)
    ensures Hashes(Escape(s)) == Hashes(s)
  {
    hide Hashes, EscapeChar;
    if s != "" {
      HashesOfEscape(s[1..]);
      HashesOfEscapeChar(s[0]);
      HashesAppend(EscapeChar(s[0]), Escape(s[1..]));
      HashesAppend([s[0]], s[1..]);
      assert s == [s[0]] + s[1..];
    }
  }

  /** Reading never adds a '#': what is read holds at most those before the comment. */
  lemma HashesRead(raw: string)
    requires ReadField(raw).Some?
    ensures Hashes(ReadField(raw).value) <= Hashes(raw[..CommentAt(raw, false)])
  {
    hide Hashes, TrimLeft, TrimRight, TrimSpace, CommentAt;
    var cut := raw[..CommentAt(raw, false)];
    var content := TrimRight(cut, " ");
    HashesOfTrim(cut, " ");
    HashesOfTrim(content, " ");
    var line := TrimLeft(content, " ");
    var i := Find(line, ':');
    HashesOfSlice(line, i + 1, |line|);
    var value := TrimSpace(line[i + 1..]);
    HashesOfTrimSpace(line[i + 1..]);
    HashesOfTrimSpace(value);
    var s := TrimSpace(value);
    if |s| >= 2 {
      HashesOfSlice(s, 1, |s| - 1);
    }
  }

  /** A string that needs quotes and holds one of the two characters they cannot carry reads back as another string. */
  lemma NotRead(key: string, s: string)
    requires KeyText(key) && Printable(s) && NeedsQuotes(s) && ('"' in s || '\\' in s)
    ensures ReadField(key + ": " + YamlStr(s)) != Some(s)
  {
    hide SPACES, SPECIAL, KeyText, Printable, ReadField, TrimSpace, CommentAt, Escape, Hashes;
    var t := Quote(s);
    var raw := key + ": " + t;
    if CommentAt(raw, false) < |raw| {
      HashesOfRaw(key, s);
      CutLosesHash(raw);
    } else {
      SpacesAre('"');
      ReadWhole(key, t);
      TrimTight(t);
      EscapeLength(s);
      assert t[1..|t| - 1] == Escape(s);
    }
  }

  lemma CutLosesHash(raw: string)
    requires CommentAt(raw, false) < |raw|
    ensures ReadField(raw).Some? ==> Hashes(ReadField(raw).value) < Hashes(raw)
  {
    hide ReadField, CommentAt;
    var k := CommentAt(raw, false);
    CommentAtMeaning(raw, false);
    assert raw == raw[..k] + ['#'] + raw[k + 1..];
    if ReadField(raw).Some? {
      HashesRead(raw);
    }
  }

  lemma HashesOfRaw(key: string, s: string)
    requires KeyText(key) && Printable(s)
    ensures Hashes(key + ": " + Quote(s)) == Hashes(s)
  {
    HashesOfEscape(s);
  }

  lemma ReadWhole(key: string, t: string)
    requires KeyText(key) && Tight(t, SPACES) && t != ""
    requires CommentAt(key + ": " + t, false) == |key + ": " + t|
    ensures ReadField(key + ": " + t) == Some(Unquote(t))
  {
    hide SPACES, KeyText, SplitKv, TrimSpace, CommentAt;
    var raw := key + ": " + t;
    KeyStart(key);
    SpacesAre(' ');
    SplitField(key, t);
    assert raw[..|raw|] == raw;
    assert raw[0] == key[0] && raw[|raw| - 1] == t[|t| - 1];
    assert TrimRight(raw, " ") == raw && TrimLeft(raw, " ") == raw;
  }

  lemma KeyStart(key: string)
    requires KeyText(key)
    ensures key != "" && key[0] != ' '
  {
  }

  /** For printable text, the exact condition: written and read back, a string returns unless it must be quoted
      while holding a quote or a backslash. */
  lemma ScalarRoundTripIff(key: string, s: string)
    requires KeyText(key) && Printable(s)
    ensures ReadField(key + ": " + YamlStr(s)) == Some(s) <==> (NeedsQuotes(s) ==> '"' !in s && '\\' !in s)
  {
    if NeedsQuotes(s) && ('"' in s || '\\' in s) {
      NotRead(key, s);
    } else {
      Reads(s);
      KeyHasNoMarks(key);
      CommentAfter(key + ": ", YamlStr(s));
      ReadWhole(key, YamlStr(s));
    }
  }

  lemma KeyHasNoMarks(key: string)
    requires KeyText(key)
    ensures '"' !in key + ": " && '#' !in key + ": "
  {
  }

  lemma FieldReturns(key: string, s: string)
    requires KeyText(key) && Printable(s)
    ensures ReadField(key + ": " + YamlStr(s)) == Some(Returned(s))
  {
    hide SPACES, KeyText, YamlStr, SplitKv, Unquote, CommentAt;
    KeyStart(key);
    KeyHasNoMarks(key);
    WrittenIsTight(s);
    LexPrefixed(0, key + ": ", YamlStr(s));
    assert Spaces(0) + (key + ": " + YamlStr(s)) == key + ": " + YamlStr(s);
    SplitField(key, WrittenText(s));
  }

  /** Printable text returns exactly when it survives. */
  lemma ReturnsIff(s: string)
    requires Printable(s)
    ensures Returned(s) == s <==> Survives(s)
  {
    assert KeyText("tz");
    FieldReturns("tz", s);
    ScalarRoundTripIff("tz", s);
    hide ReadField, Returned, YamlStr;
  }
}
