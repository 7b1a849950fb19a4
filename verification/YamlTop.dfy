/** What the top-level scalars of a settings file come to, for every file the parser accepts. */
module YamlTop {
  import opened Bytes
  import opened YamlText
  import opened YamlScalar
  import opened YamlParse

  const SCALAR_KEYS: seq<string> := ["interval_sec", "listen", "device_token", "tz"]

  /** A line at column 0 with that key. */
  predicate Gives(line: Line, key: string)
  {
    line.indent == 0 && SplitKv(line.content).Some? && SplitKv(line.content).value.0 == key
  }

  /** What the last such line gives. */
  function LastValue(lines: seq<Line>, key: string): Option<string>
  {
    if lines == [] then None
    else if Gives(lines[|lines| - 1], key) then Some(SplitKv(lines[|lines| - 1].content).value.1)
    else LastValue(lines[..|lines| - 1], key)
  }

  /** The same lines count for the scalars. */
  predicate SameLast(a: seq<Line>, b: seq<Line>)
  {
    forall key :: key in SCALAR_KEYS ==> LastValue(a, key) == LastValue(b, key)
  }

  lemma {:induction false} LastOfCons(lines: seq<Line>, key: string)
    requires lines != []
    ensures LastValue(lines, key)
            == if LastValue(lines[1..], key).Some? then LastValue(lines[1..], key)
               else if Gives(lines[0], key) then Some(SplitKv(lines[0].content).value.1) else None
    decreases |lines|
  {
    hide Gives, SplitKv;
    if |lines| > 1 {
      var front := lines[..|lines| - 1];
      LastOfCons(front, key);
      assert lines[1..][..|lines| - 2] == front[1..];
    }
  }

  lemma SkipLine(lines: seq<Line>)
    requires lines != [] && forall key :: key in SCALAR_KEYS ==> !Gives(lines[0], key)
    ensures SameLast(lines, lines[1..])
  {
    hide Gives, SCALAR_KEYS;
    forall key | key in SCALAR_KEYS
      ensures LastValue(lines, key) == LastValue(lines[1..], key)
    {
      LastOfCons(lines, key);
    }
  }

  lemma SkipIndented(lines: seq<Line>)
    requires lines != [] && lines[0].indent != 0
    ensures SameLast(lines, lines[1..])
  {
    SkipLine(lines);
  }

  lemma {:induction false} TrimRightKeepsHead(s: string, cutset: string)
    requires s != [] && s[0] !in cutset
    ensures TrimRight(s, cutset) != [] && TrimRight(s, cutset)[0] == s[0]
    decreases |s|
  {
    if s[|s| - 1] in cutset {
      TrimRightKeepsHead(s[..|s| - 1], cutset);
    }
  }

  lemma DashKey(content: string)
    requires HasPrefix(content, "- ") && SplitKv(content).Some?
    ensures SplitKv(content).value.0 != "" && SplitKv(content).value.0[0] == '-'
  {
    var k := Find(content, ':');
    assert content[0] == '-';
    TrimRightKeepsHead(content[..k], SPACES);
  }

  lemma DashIsNoScalar(line: Line, indent: nat)
    requires IsItem(line, indent)
    ensures forall key :: key in SCALAR_KEYS ==> !Gives(line, key)
  {
    if SplitKv(line.content).Some? {
      DashKey(line.content);
      hide SplitKv;
      assert forall key :: key in SCALAR_KEYS ==> key != "" && key[0] != '-';
    }
  }

  // --- blocks take no scalar lines ---

  lemma SameIsSame(a: seq<Line>)
    ensures SameLast(a, a)
  {
  }

  lemma SameThrough(a: seq<Line>, b: seq<Line>, c: seq<Line>)
    requires SameLast(a, b) && SameLast(b, c)
    ensures SameLast(a, c)
  {
  }

  lemma {:induction false} PlanFieldsSkip(ft: FloatText, lines: seq<Line>, indent: nat, p: Plan)
    requires indent > 0 && PlanFields(ft, lines, indent, p).Some?
    ensures SameLast(lines, PlanFields(ft, lines, indent, p).value.1)
  {
    hide SameLast, PlanField, SplitKv;
    if lines == [] || lines[0].indent != indent {
      SameIsSame(lines);
    } else {
      SkipIndented(lines);
      PlanFieldsSkip(ft, lines[1..], indent, PlanField(ft, p, SplitKv(lines[0].content).value.0,
                                                        SplitKv(lines[0].content).value.1).value);
      SameThrough(lines, lines[1..], PlanFields(ft, lines, indent, p).value.1);
    }
  }

  lemma {:induction false} ProviderFieldsSkip(ft: FloatText, lines: seq<Line>, indent: nat, p: Provider)
    requires indent > 0 && ProviderFields(ft, lines, indent, p).Some?
    ensures SameLast(lines, ProviderFields(ft, lines, indent, p).value.1)
    decreases |lines|
  {
    hide SameLast, ProviderField, PlanFields, SplitKv;
    if lines == [] || lines[0].indent != indent {
      SameIsSame(lines);
    } else {
      var kv, out := SplitKv(lines[0].content).value, ProviderFields(ft, lines, indent, p).value.1;
      SkipIndented(lines);
      if kv == ("plan", "") {
        var block := PlanBlock(ft, lines[1..], indent + 2).value;
        PlanFieldsSkip(ft, lines[1..], indent + 2, EMPTY_PLAN);
        ProviderFieldsSkip(ft, block.1, indent, p.(plan := Some(block.0)));
        SameThrough(lines[1..], block.1, out);
      } else {
        ProviderFieldsSkip(ft, lines[1..], indent, ProviderField(p, kv.0, kv.1).value);
      }
      SameThrough(lines, lines[1..], out);
    }
  }

  lemma {:induction false} ProviderItemsSkip(ft: FloatText, lines: seq<Line>, indent: nat, acc: seq<Provider>)
    requires ProviderItems(ft, lines, indent, acc).Some?
    ensures SameLast(lines, ProviderItems(ft, lines, indent, acc).value.1)
    decreases |lines|
  {
    hide SameLast, ProviderFields, DashField, IsItem;
    if lines == [] || !IsItem(lines[0], indent) {
      SameIsSame(lines);
    } else {
      ItemLength(lines[0], indent);
      var first := DashField(lines[0].content).value;
      var item, out := ProviderFields(ft, lines[1..], indent + 2, first).value,
                       ProviderItems(ft, lines, indent, acc).value.1;
      DashIsNoScalar(lines[0], indent);
      SkipLine(lines);
      ProviderFieldsSkip(ft, lines[1..], indent + 2, first);
      ProviderItemsSkip(ft, item.1, indent, acc + [item.0]);
      SameThrough(lines[1..], item.1, out);
      SameThrough(lines, lines[1..], out);
    }
  }

  lemma {:induction false} StringItemsSkip(lines: seq<Line>, acc: seq<string>)
    ensures SameLast(lines, StringItems(lines, 2, acc).1)
    decreases |lines|
  {
    hide SameLast, Unquote, TrimSpace;
    if lines == [] || !IsItem(lines[0], 2) {
      SameIsSame(lines);
    } else {
      SkipIndented(lines);
      StringItemsSkip(lines[1..], acc + [Unquote(TrimSpace(lines[0].content[2..]))]);
      SameThrough(lines, lines[1..], StringItems(lines, 2, acc).1);
    }
  }

  lemma {:induction false} AlertItemsSkip(ft: FloatText, lines: seq<Line>, m: map<string, Number>)
    requires AlertItems(ft, lines, m).Some?
    ensures SameLast(lines, AlertItems(ft, lines, m).value.1)
    decreases |lines|
  {
    hide SameLast, SplitKv, ValidAlertKey;
    if lines == [] || lines[0].indent != 2 {
      SameIsSame(lines);
    } else {
      var kv := SplitKv(lines[0].content).value;
      SkipIndented(lines);
      AlertItemsSkip(ft, lines[1..], m[kv.0 := ft.parse(kv.1).value]);
      SameThrough(lines, lines[1..], AlertItems(ft, lines, m).value.1);
    }
  }

  predicate SameScalars(a: FileConfig, b: FileConfig)
  {
    a.intervalSec == b.intervalSec && a.listen == b.listen && a.deviceToken == b.deviceToken && a.tz == b.tz
  }

  lemma BlockSkips(ft: FloatText, lines: seq<Line>, fc: FileConfig, key: string)
    requires TopBlock(ft, lines, fc, key).Some?
    ensures SameScalars(TopBlock(ft, lines, fc, key).value.0, fc)
    ensures SameLast(lines, TopBlock(ft, lines, fc, key).value.1)
  {
    hide SameLast, AlertItems, ProviderItems, StringItems;
    SameIsSame(lines);
    if key == "alerts" {
      AlertItemsSkip(ft, lines, map[]);
    } else if key == "providers" {
      if lines != [] {
        ProviderItemsSkip(ft, lines, lines[0].indent, []);
      }
    } else {
      StringItemsSkip(lines, []);
    }
  }

  // --- the top level ---

  /** The configuration holds what the last line of each key gives, and else what it held. */
  predicate Holds(after: FileConfig, lines: seq<Line>, was: FileConfig)
  {
    var interval, listen := LastValue(lines, "interval_sec"), LastValue(lines, "listen");
    var token, zone := LastValue(lines, "device_token"), LastValue(lines, "tz");
    && (interval.None? ==> after.intervalSec == was.intervalSec)
    && (interval.Some? ==> Atoi(interval.value) == Some(after.intervalSec as int))
    && after.listen == (if listen.None? then was.listen else Unquote(listen.value))
    && after.deviceToken == (if token.None? then was.deviceToken else Unquote(token.value))
    && after.tz == (if zone.None? then was.tz else Unquote(zone.value))
  }

  lemma HoldsThroughBlock(after: FileConfig, lines: seq<Line>, rest: seq<Line>, mid: FileConfig, was: FileConfig)
    requires Holds(after, rest, mid) && SameLast(lines, rest) && SameScalars(mid, was)
    ensures Holds(after, lines, was)
  {
    hide LastValue, Atoi, Unquote;
    assert SCALAR_KEYS[0] == "interval_sec" && SCALAR_KEYS[1] == "listen";
    assert SCALAR_KEYS[2] == "device_token" && SCALAR_KEYS[3] == "tz";
  }

  lemma BlockLine(lines: seq<Line>)
    requires lines != [] && SplitKv(lines[0].content).Some? && IsBlockKey(SplitKv(lines[0].content).value.0)
    ensures SameLast(lines, lines[1..])
  {
    hide SplitKv;
    SkipLine(lines);
  }

  lemma KeysDiffer()
    ensures "interval_sec" != "listen" && "interval_sec" != "device_token" && "interval_sec" != "tz"
    ensures "listen" != "device_token" && "listen" != "tz" && "device_token" != "tz"
  {
    assert "interval_sec"[0] == 'i' && "device_token"[0] == 'd';
    assert |"interval_sec"| == 12 && |"listen"| == 6 && |"device_token"| == 12 && |"tz"| == 2;
  }

  lemma HoldsThroughScalar(after: FileConfig, lines: seq<Line>, mid: FileConfig, was: FileConfig)
    requires lines != [] && lines[0].indent == 0 && SplitKv(lines[0].content).Some?
    requires var kv := SplitKv(lines[0].content).value; TopScalar(was, kv.0, kv.1) == Some(mid)
    requires Holds(after, lines[1..], mid)
    ensures Holds(after, lines, was)
  {
    hide LastValue, Atoi, Unquote, SplitKv;
    LastOfCons(lines, "interval_sec");
    LastOfCons(lines, "listen");
    LastOfCons(lines, "device_token");
    LastOfCons(lines, "tz");
    KeysDiffer();
  }

  lemma NoLines(fc: FileConfig)
    ensures Holds(fc, [], fc)
  {
  }

  lemma {:induction false} TopLevelHolds(ft: FloatText, lines: seq<Line>, fc: FileConfig)
    requires TopLevel(ft, lines, fc).Some?
    ensures Holds(TopLevel(ft, lines, fc).value, lines, fc)
    decreases |lines|
  {
    hide Holds, SplitKv, IsBlockKey, TopBlock, TopScalar, SameLast, SameScalars;
    if lines == [] {
      NoLines(fc);
    } else {
      var kv, out := SplitKv(lines[0].content).value, TopLevel(ft, lines, fc).value;
      if IsBlockKey(kv.0) {
        var b := TopBlock(ft, lines[1..], fc, kv.0).value;
        TopLevelHolds(ft, b.1, b.0);
        BlockSkips(ft, lines[1..], fc, kv.0);
        BlockLine(lines);
        SameThrough(lines, lines[1..], b.1);
        HoldsThroughBlock(out, lines, b.1, b.0, fc);
      } else {
        TopLevelHolds(ft, lines[1..], TopScalar(fc, kv.0, kv.1).value);
        HoldsThroughScalar(out, lines, TopScalar(fc, kv.0, kv.1).value, fc);
      }
    }
  }

  /** In every file the parser accepts, the interval, the listen address, the device token and the time zone are those
      of the last line at column 0 with that key, and unset when there is none. */
  lemma ScalarsMeaning(ft: FloatText, text: string)
    requires Parse(ft, text).Some?
    ensures Lex(text).Some? && Holds(Parse(ft, text).value, Lex(text).value, EMPTY_CONFIG)
  {
    hide Holds, TopLevel, Lex;
    TopLevelHolds(ft, Lex(text).value, EMPTY_CONFIG);
  }

  // --- values, told from their characters ---

  /** The start of an API key, which a settings file must not hold. */
  predicate IsKey(s: string)
  {
    || (|s| >= 3 && s[0] == 's' && s[1] == 'k' && s[2] == '-')
    || (|s| >= 4 && s[0] == 'g' && s[1] == 's' && s[2] == 'k' && s[3] == '_')
  }

  lemma KeyIs(s: string)
    ensures LooksLikeKey(s) <==> IsKey(s)
  {
    assert "sk-"[0] == 's' && "sk-"[1] == 'k' && "sk-"[2] == '-' && |"sk-"| == 3;
    assert "gsk_"[0] == 'g' && "gsk_"[1] == 's' && "gsk_"[2] == 'k' && "gsk_"[3] == '_' && |"gsk_"| == 4;
    if IsKey(s) {
      assert s[..3] == "sk-" || s[..4] == "gsk_";
    }
  }

  /** A key_env is refused exactly when it is the start of a key instead of a variable's name. */
  lemma KeyEnvIff(p: Provider, value: string)
    ensures ProviderField(p, "key_env", value) == None <==> IsKey(Unquote(value))
  {
    KeyIs(Unquote(value));
    assert |"key_env"| == 7 && |"id"| == 2 && |"enabled"| == 7 && |"label"| == 5 && "enabled"[0] == 'e';
    hide Unquote, LooksLikeKey, ParseBool;
  }

  /** Decimal integers: an optional sign, digits, and nothing outside 64 bits. */
  lemma AtoiMeaning(digits: string)
    requires Digits(digits)
    ensures var n: int := Value(digits);
            && Atoi(digits) == (if n < 0x8000_0000_0000_0000 then Some(n) else None)
            && Atoi("+" + digits) == (if n < 0x8000_0000_0000_0000 then Some(n) else None)
            && Atoi("-" + digits) == (if n <= 0x8000_0000_0000_0000 then Some(0 - n) else None)
  {
    assert ("+" + digits)[1..] == digits && ("-" + digits)[1..] == digits;
    assert digits[0] !in "+-";
    hide Value, Digits;
  }

  lemma AtoiOfOther(s: string)
    requires !Digits(s) && (s == "" || (s[0] != '+' && s[0] != '-') || !Digits(s[1..]))
    ensures Atoi(s) == None
  {
  }

  /** A character that makes the printer quote a scalar. */
  predicate Marks(c: char)
  {
    c == ' ' || c == ':' || c == '#' || c == '"' || c == '\'' || c == '{' || c == '}' || c == '[' || c == ']'
    || c == ',' || c == '&' || c == '*' || c == '?' || c == '|' || c == '-' || c == '<' || c == '>'
  }

  lemma MarksAre(c: char)
    ensures c in SPECIAL <==> Marks(c)
  {
    if Marks(c) {
      assert SPECIAL[0] == ' ' && SPECIAL[1] == ':' && SPECIAL[2] == '#' && SPECIAL[3] == '"' && SPECIAL[4] == '\'';
      assert SPECIAL[5] == '{' && SPECIAL[6] == '}' && SPECIAL[7] == '[' && SPECIAL[8] == ']' && SPECIAL[9] == ',';
      assert SPECIAL[10] == '&' && SPECIAL[11] == '*' && SPECIAL[12] == '?' && SPECIAL[13] == '|';
      assert SPECIAL[14] == '-' && SPECIAL[15] == '<' && SPECIAL[16] == '>';
    }
  }

  lemma {:induction false} EscapeLonger(s: string)
    ensures |Escape(s)| >= |s|
  {
    if s != "" {
      EscapeLonger(s[1..]);
    }
  }

  /** A scalar is written as it stands exactly when it is not empty and holds no such character, and else in quotes. */
  lemma PlainIff(s: string)
    ensures YamlStr(s) == s <==> s != "" && forall i :: 0 <= i < |s| ==> !Marks(s[i])
    ensures YamlStr(s) != s ==> |YamlStr(s)| >= 2 && YamlStr(s)[0] == '"' && YamlStr(s)[|YamlStr(s)| - 1] == '"'
  {
    forall i | 0 <= i < |s|
      ensures s[i] in SPECIAL <==> Marks(s[i])
    {
      MarksAre(s[i]);
    }
    EscapeLonger(s);
    hide SPECIAL, Marks, Escape;
    if NeedsQuotes(s) && s != "" {
      var c :| c in s && c in SPECIAL;
    }
  }

  /** Quoting escapes control characters, quotes and backslashes. */
  lemma Escapes()
    ensures EscapeChar('"') == "\\\"" && EscapeChar('\\') == "\\\\" && EscapeChar('a') == "a"
    ensures EscapeChar('\n') == "\\n" && EscapeChar('\r') == "\\r" && EscapeChar('\t') == "\\t"
    ensures EscapeChar('\U{7}') == "\\a" && EscapeChar('\U{8}') == "\\b" && EscapeChar('\U{b}') == "\\v"
    ensures EscapeChar('\U{c}') == "\\f" && EscapeChar('\U{1f}') == "\\x1f" && EscapeChar('\U{7f}') == "\\x7f"
  {
    assert Hex(1) == '1' && Hex(15) == 'f' && Hex(7) == '7';
    assert "\\x" + ['1', 'f'] == "\\x1f" && "\\x" + ['7', 'f'] == "\\x7f";
  }
}
