/** The text level of the settings file: lines, comments, scalars, and when a written scalar reads back. */
module YamlText {
  import opened Bytes

  // --- trimming and splitting, as the Go strings package does them ---

  /** The characters strings.TrimSpace removes. */
  const SPACES: string :=
    "\t\n\U{b}\U{c}\r \U{85}\U{a0}\U{1680}\U{2000}\U{2001}\U{2002}\U{2003}\U{2004}"
    + "\U{2005}\U{2006}\U{2007}\U{2008}\U{2009}\U{200a}\U{2028}\U{2029}\U{202f}\U{205f}\U{3000}"

  function TrimLeft(s: string, cutset: string): (r: string)
    ensures |r| <= |s|
  {
    if s != [] && s[0] in cutset then TrimLeft(s[1..], cutset) else s
  }

  function TrimRight(s: string, cutset: string): (r: string)
    ensures |r| <= |s|
  {
    if s != [] && s[|s| - 1] in cutset then TrimRight(s[..|s| - 1], cutset) else s
  }

  function TrimSpace(s: string): string
  {
    TrimLeft(TrimRight(s, SPACES), SPACES)
  }

  /** The text neither starts nor ends with a character of the cutset. */
  predicate Tight(s: string, cutset: string)
  {
    s != [] ==> s[0] !in cutset && s[|s| - 1] !in cutset
  }

  function HasPrefix(s: string, prefix: string): bool
  {
    prefix <= s
  }

  /** The first index of c, or the length of s when there is none. */
  function Find(s: string, c: char): (k: nat)
    ensures k <= |s|
    ensures k < |s| ==> s[k] == c
    ensures c !in s[..k]
  {
    if s == [] || s[0] == c then 0 else 1 + Find(s[1..], c)
  }

  function SplitLines(text: string): (raws: seq<string>)
    ensures raws != []
    decreases |text|
  {
    var k := Find(text, '\n');
    if k == |text| then [text] else [text[..k]] + SplitLines(text[k + 1..])
  }

  // --- comments ---

  /** Where a comment starts, or the length of the line; a '#' between double quotes does not start one. */
  function CommentAt(line: string, inQuote: bool): (k: nat)
    ensures k <= |line|
  {
    if line == [] then 0
    else
      var inside := if line[0] == '"' then !inQuote else inQuote;
      if line[0] == '#' && !inside then 0 else 1 + CommentAt(line[1..], inside)
  }

  function Quotes(s: string): nat
  {
    if s == [] then 0 else (if s[0] == '"' then 1 else 0) + Quotes(s[1..])
  }

  predicate Inside(s: string, inQuote: bool)
  {
    (Quotes(s) % 2 == 1) != inQuote
  }

  /** What CommentAt finds: the first '#' that an even number of double quotes precedes. */
  lemma {:induction false} CommentAtMeaning(line: string, inQuote: bool)
    ensures var k := CommentAt(line, inQuote);
            && (k < |line| ==> line[k] == '#' && !Inside(line[..k], inQuote))
            && (forall j :: 0 <= j < k && line[j] == '#' ==> Inside(line[..j], inQuote))
  {
    if line != [] {
      var inside := if line[0] == '"' then !inQuote else inQuote;
      CommentAtMeaning(line[1..], inside);
      var k := CommentAt(line, inQuote);
      forall j | 0 <= j <= k && j < |line| && line[j] == '#'
        ensures Inside(line[..j], inQuote) == (j < k)
      {
        if j > 0 {
          assert line[..j][1..] == line[1..][..j - 1];
        }
      }
    }
  }

  method StripInlineComment(line: string) returns (r: string)
    ensures r == line[..CommentAt(line, false)]
  {
    var inQuote := false;
    for i := 0 to |line|
      invariant CommentAt(line, false) == i + CommentAt(line[i..], inQuote)
    {
      assert line[i..][1..] == line[i + 1..];
      if line[i] == '"' {
        inQuote := !inQuote;
      }
      if line[i] == '#' && !inQuote {
        return line[..i];
      }
    }
    return line;
  }

  // --- lines ---

  /** A line that carries something: its leading spaces and the rest, without the comment. */
  datatype Line = Line(indent: nat, content: string)

  /** What one raw line contributes: nothing, or a line. */
  function LexLine(raw: string): seq<Line>
  {
    var content := TrimRight(raw[..CommentAt(raw, false)], " ");
    if content == "" then []
    else [Line(|content| - |TrimLeft(content, " ")|, TrimLeft(content, " "))]
  }

  /** None is the error for a tab anywhere on a line, comments included. */
  function LexFrom(raws: seq<string>, acc: seq<Line>): Option<seq<Line>>
  {
    if raws == [] then Some(acc)
    else if '\t' in raws[0] then None
    else LexFrom(raws[1..], acc + LexLine(raws[0]))
  }

  function Lex(text: string): Option<seq<Line>>
  {
    LexFrom(SplitLines(text), [])
  }

  method LexYaml(text: string) returns (r: Option<seq<Line>>)
    ensures r == Lex(text)
  {
    var raws := SplitLines(text);
    var out: seq<Line> := [];
    for i := 0 to |raws|
      invariant LexFrom(raws[i..], out) == Lex(text)
    {
      assert raws[i..][1..] == raws[i + 1..];
      if '\t' in raws[i] {
        return None;
      }
      var content := StripInlineComment(raws[i]);
      content := TrimRight(content, " ");
      if content != "" {
        var trimmed := TrimLeft(content, " ");
        out := out + [Line(|content| - |trimmed|, trimmed)];
      } else {
        assert out + [] == out;
      }
    }
    return Some(out);
  }

  // --- printing lines ---

  function Spaces(n: nat): (r: string)
    ensures |r| == n
  {
    if n == 0 then "" else " " + Spaces(n - 1)
  }

  function Print(line: Line): string
  {
    Spaces(line.indent) + line.content + "\n"
  }

  function Render(lines: seq<Line>): string
  {
    if lines == [] then "" else Print(lines[0]) + Render(lines[1..])
  }

  /** A line the lexer gives back as it is. */
  predicate Plain(line: Line)
  {
    && line.content != "" && Tight(line.content, " ")
    && '\n' !in line.content && '\t' !in line.content
    && CommentAt(line.content, false) == |line.content|
  }

  lemma Assoc(a: string, b: string, c: string)
    ensures a + (b + c) == a + b + c
  {
  }

  lemma {:induction false} RenderAppend(a: seq<Line>, b: seq<Line>)
    ensures Render(a + b) == Render(a) + Render(b)
  {
    hide Print;
    if a == [] {
      assert a + b == b;
      assert Render(a) + Render(b) == Render(b);
    } else {
      RenderAppend(a[1..], b);
      assert (a + b)[1..] == a[1..] + b;
      Assoc(Print(a[0]), Render(a[1..]), Render(b));
    }
  }

  lemma {:induction false} SpacesHold(n: nat)
    ensures forall i :: 0 <= i < n ==> Spaces(n)[i] == ' '
  {
    if n > 0 {
      SpacesHold(n - 1);
    }
  }

  lemma {:induction false} FindAppend(a: string, c: char, b: string)
    requires c !in a
    ensures Find(a + [c] + b, c) == |a|
  {
    if a == "" {
    } else {
      FindAppend(a[1..], c, b);
      assert (a + [c] + b)[1..] == a[1..] + [c] + b;
    }
  }

  lemma {:induction false} CommentAfter(prefix: string, s: string)
    requires '"' !in prefix && '#' !in prefix
    ensures CommentAt(prefix + s, false) == |prefix| + CommentAt(s, false)
  {
    if prefix == "" {
      assert prefix + s == s;
    } else {
      CommentAfter(prefix[1..], s);
      assert (prefix + s)[1..] == prefix[1..] + s;
    }
  }

  lemma {:induction false} TrimSpaces(n: nat, s: string)
    requires s != "" && s[0] != ' '
    ensures TrimLeft(Spaces(n) + s, " ") == s
  {
    if n == 0 {
      assert Spaces(0) + s == s;
    } else {
      var t := Spaces(n) + s;
      assert t[0] == ' ' && t[1..] == Spaces(n - 1) + s;
      TrimSpaces(n - 1, s);
      assert TrimLeft(t, " ") == TrimLeft(t[1..], " ");
    }
  }

  lemma LexPlain(line: Line)
    requires Plain(line)
    ensures '\n' !in Spaces(line.indent) + line.content
    ensures '\t' !in Spaces(line.indent) + line.content
    ensures LexLine(Spaces(line.indent) + line.content) == [line]
  {
    hide CommentAt, Spaces, TrimLeft;
    var raw := Spaces(line.indent) + line.content;
    SpacesHold(line.indent);
    CommentAfter(Spaces(line.indent), line.content);
    assert raw[..|raw|] == raw;
    TrimSpaces(line.indent, line.content);
    assert TrimRight(raw, " ") == raw by {
      assert raw[|raw| - 1] == line.content[|line.content| - 1];
    }
  }

  lemma LexEmpty(acc: seq<Line>)
    ensures LexFrom(SplitLines(""), acc) == Some(acc)
  {
    assert SplitLines("") == [""];
    assert LexLine("") == [];
    assert acc + [] == acc;
  }

  lemma {:induction false} TrimRightAppend(a: string, b: string)
    requires TrimRight(b, " ") != ""
    ensures TrimRight(a + b, " ") == a + TrimRight(b, " ")
    decreases |b|
  {
    if b[|b| - 1] == ' ' {
      assert (a + b)[..|a + b| - 1] == a + b[..|b| - 1];
      TrimRightAppend(a, b[..|b| - 1]);
    }
  }

  /** What the lexer keeps of a text at the end of a line: what precedes a comment, without trailing spaces. */
  function Kept(text: string): string
  {
    TrimRight(text[..CommentAt(text, false)], " ")
  }

  /** The line the lexer makes of a printed line. */
  predicate Lexes(line: Line, kept: Line)
  {
    && '\n' !in line.content && '\t' !in line.content
    && LexLine(Spaces(line.indent) + line.content) == [kept]
  }

  lemma PlainLexes(line: Line)
    requires Plain(line)
    ensures Lexes(line, line)
  {
    LexPlain(line);
  }

  /** A comment in a text is cut off behind whatever stands before the text. */
  lemma LexPrefixed(indent: nat, prefix: string, text: string)
    requires prefix != "" && prefix[0] != ' ' && '"' !in prefix && '#' !in prefix && Kept(text) != ""
    ensures LexLine(Spaces(indent) + (prefix + text)) == [Line(indent, prefix + Kept(text))]
  {
    hide CommentAt, Spaces, TrimLeft, TrimRight;
    var before := Spaces(indent) + prefix;
    var raw := before + text;
    assert raw == Spaces(indent) + (prefix + text);
    SpacesHold(indent);
    CommentAfter(before, text);
    var cut := text[..CommentAt(text, false)];
    assert raw[..CommentAt(raw, false)] == before + cut;
    TrimRightAppend(before, cut);
    TrimSpaces(indent, prefix + Kept(text));
    assert before + Kept(text) == Spaces(indent) + (prefix + Kept(text));
  }

  lemma LexesRaw(line: Line, kept: Line)
    requires Lexes(line, kept)
    ensures var raw := Spaces(line.indent) + line.content;
            '\n' !in raw && '\t' !in raw && LexLine(raw) == [kept]
  {
    hide LexLine, Spaces;
    SpacesHold(line.indent);
  }

  lemma SplitFirst(raw: string, rest: string)
    requires '\n' !in raw
    ensures SplitLines(raw + "\n" + rest) == [raw] + SplitLines(rest)
  {
    FindAppend(raw, '\n', rest);
    var text := raw + ['\n'] + rest;
    assert text[..|raw|] == raw && text[|raw| + 1..] == rest;
  }

  /** Printed lines are read as the lines the lexer makes of each. */
  lemma {:induction false} LexRenderFrom(lines: seq<Line>, kept: seq<Line>, acc: seq<Line>)
    requires |lines| == |kept| && forall i :: 0 <= i < |lines| ==> Lexes(lines[i], kept[i])
    ensures LexFrom(SplitLines(Render(lines)), acc) == Some(acc + kept)
  {
    hide LexLine, Spaces, Lexes;
    if lines == [] {
      LexEmpty(acc);
      assert acc + kept == acc;
    } else {
      var raw := Spaces(lines[0].indent) + lines[0].content;
      var rest := Render(lines[1..]);
      LexesRaw(lines[0], kept[0]);
      SplitFirst(raw, rest);
      assert Render(lines) == raw + "\n" + rest;
      LexRenderFrom(lines[1..], kept[1..], acc + [kept[0]]);
      hide SplitLines, Render;
      assert ([raw] + SplitLines(rest))[1..] == SplitLines(rest);
      assert acc + [kept[0]] + kept[1..] == acc + kept;
    }
  }

  // --- trimming ---

  predicate AllIn(s: string, cutset: string)
  {
    forall i :: 0 <= i < |s| ==> s[i] in cutset
  }

  /** s is t without what of the cutset surrounds it. */
  predicate Surrounds(a: string, s: string, b: string, t: string, cutset: string)
  {
    t == a + s + b && AllIn(a, cutset) && AllIn(b, cutset) && Tight(s, cutset)
  }

  lemma {:induction false} TrimLeftSplits(t: string, cutset: string) returns (a: string)
    ensures t == a + TrimLeft(t, cutset) && AllIn(a, cutset)
    ensures TrimLeft(t, cutset) != "" ==> TrimLeft(t, cutset)[0] !in cutset
  {
    a := "";
    if t != [] && t[0] in cutset {
      var rest := TrimLeftSplits(t[1..], cutset);
      a := [t[0]] + rest;
      assert t == [t[0]] + t[1..];
    }
  }

  lemma {:induction false} TrimRightSplits(t: string, cutset: string) returns (b: string)
    ensures t == TrimRight(t, cutset) + b && AllIn(b, cutset)
    ensures TrimRight(t, cutset) != "" ==> TrimRight(t, cutset)[|TrimRight(t, cutset)| - 1] !in cutset
    decreases |t|
  {
    b := "";
    if t != [] && t[|t| - 1] in cutset {
      var front, last := t[..|t| - 1], t[|t| - 1];
      var rest := TrimRightSplits(front, cutset);
      b := rest + [last];
      assert t == front + [last];
      Assoc(TrimRight(front, cutset), rest, [last]);
    } else {
      assert t == t + "";
    }
  }

  lemma {:induction false} TrimLeftOff(a: string, s: string, cutset: string)
    requires AllIn(a, cutset) && (s != "" ==> s[0] !in cutset)
    ensures TrimLeft(a + s, cutset) == s
  {
    if a == "" {
      assert a + s == s;
    } else {
      assert (a + s)[1..] == a[1..] + s;
      TrimLeftOff(a[1..], s, cutset);
    }
  }

  lemma {:induction false} TrimRightOff(s: string, b: string, cutset: string)
    requires AllIn(b, cutset) && (s != "" ==> s[|s| - 1] !in cutset)
    ensures TrimRight(s + b, cutset) == s
    decreases |b|
  {
    if b == "" {
      assert s + b == s;
    } else {
      assert (s + b)[..|s + b| - 1] == s + b[..|b| - 1];
      TrimRightOff(s, b[..|b| - 1], cutset);
    }
  }

  /** Trimming a text yields exactly what stands between the spaces around it. */
  lemma TrimIff(t: string, s: string)
    ensures TrimSpace(t) == s <==> exists a, b :: Surrounds(a, s, b, t, SPACES)
  {
    hide SPACES;
    if a, b :| Surrounds(a, s, b, t, SPACES) {
      if s == "" {
        assert a + s + b == "" + (a + b);
        TrimRightOff("", a + b, SPACES);
      } else {
        TrimRightOff(a + s, b, SPACES);
        TrimLeftOff(a, s, SPACES);
      }
    }
    if TrimSpace(t) == s {
      var b := TrimRightSplits(t, SPACES);
      var a := TrimLeftSplits(TrimRight(t, SPACES), SPACES);
      assert Surrounds(a, s, b, t, SPACES);
    }
  }
}
