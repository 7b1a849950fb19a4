/** The law of the settings file: what a restart reads from a written file, for all printable settings. */
module YamlRestart {
  import opened Bytes
  import opened YamlText
  import opened YamlScalar
  import opened YamlParse
  import opened YamlConfig

  // --- what reading back gives ---

  function NormalPlan(p: Plan): Plan
  {
    p.(costUsd := if p.hasCostUsd then p.costUsd else ZERO)
  }

  function NormalProvider(p: Provider): Provider
  {
    p.(probe := p.hasProbe && p.probe, plan := if p.plan.None? then None else Some(NormalPlan(p.plan.value)))
  }

  function NormalProviders(providers: seq<Provider>): (r: seq<Provider>)
    ensures |r| == |providers|
    ensures forall i :: 0 <= i < |r| ==> r[i] == NormalProvider(providers[i])
  {
    if providers == [] then [] else [NormalProvider(providers[0])] + NormalProviders(providers[1..])
  }

  /** The printed keys of the alerts map. */
  function PrintedAlerts(alerts: map<string, Number>): map<string, Number>
  {
    map k | k in alerts && k in ALERT_KEYS :: alerts[k]
  }

  /** Unwritten or undistinguished parts come back as their defaults. */
  function Normal(fc: FileConfig): FileConfig
  {
    fc.(intervalSec := Positive(fc.intervalSec), deviceToken := "", alerts := PrintedAlerts(fc.alerts),
        providers := NormalProviders(fc.providers))
  }

  /** The plan block prints at least one line. */
  predicate HasFields(p: Plan)
  {
    p.cost != ZERO || p.currency != "" || p.title != "" || p.hasCostUsd
  }

  predicate ReadableProvider(p: Provider)
  {
    !LooksLikeKey(p.keyEnv) && (p.plan.Some? ==> HasFields(p.plan.value))
  }

  predicate AllReadable(providers: seq<Provider>)
  {
    forall p :: p in providers ==> ReadableProvider(p)
  }

  /** The written file is one the parser accepts. */
  predicate Readable(fc: FileConfig)
  {
    && ValidIds(fc.providers)
    && AllReadable(fc.providers)
    && (fc.alerts == map[] || exists k :: k in ALERT_KEYS && k in fc.alerts)
  }

  predicate PlanScalars(p: Plan)
  {
    Survives(p.currency) && Survives(p.title)
  }

  predicate ProviderScalars(p: Provider)
  {
    && Survives(p.id) && Survives(p.title) && Survives(p.keyEnv)
    && (p.plan.Some? ==> PlanScalars(p.plan.value))
  }

  /** Every string written survives being written and read. */
  predicate Scalars(fc: FileConfig)
  {
    && Survives(fc.listen) && Survives(fc.tz)
    && (forall id :: id in fc.providerOrder ==> Survives(id))
    && (forall p :: p in fc.providers ==> ProviderScalars(p))
  }

  /** Every string written is printable. */
  predicate PlanText(p: Plan)
  {
    Printable(p.currency) && Printable(p.title)
  }

  predicate ProviderText(p: Provider)
  {
    Printable(p.id) && Printable(p.title) && Printable(p.keyEnv) && (p.plan.Some? ==> PlanText(p.plan.value))
  }

  predicate AllText(fc: FileConfig)
  {
    && Printable(fc.listen) && Printable(fc.tz)
    && (forall id :: id in fc.providerOrder ==> Printable(id))
    && (forall p :: p in fc.providers ==> ProviderText(p))
  }

  /** The settings with each string as it comes back from the file. */
  function ReturnedPlan(p: Plan): Plan
  {
    p.(currency := Returned(p.currency), title := Returned(p.title))
  }

  function ReturnedProvider(p: Provider): Provider
  {
    p.(id := Returned(p.id), title := Returned(p.title), keyEnv := Returned(p.keyEnv),
       plan := if p.plan.None? then None else Some(ReturnedPlan(p.plan.value)))
  }

  function ReturnedProviders(providers: seq<Provider>): (r: seq<Provider>)
    ensures |r| == |providers|
    ensures forall i :: 0 <= i < |r| ==> r[i] == ReturnedProvider(providers[i])
  {
    if providers == [] then [] else [ReturnedProvider(providers[0])] + ReturnedProviders(providers[1..])
  }

  function ReturnedOrder(order: seq<string>): (r: seq<string>)
    ensures |r| == |order|
    ensures forall i :: 0 <= i < |r| ==> r[i] == Returned(order[i])
  {
    if order == [] then [] else [Returned(order[0])] + ReturnedOrder(order[1..])
  }

  function ReturnedConfig(fc: FileConfig): FileConfig
  {
    fc.(listen := Returned(fc.listen), tz := Returned(fc.tz), providerOrder := ReturnedOrder(fc.providerOrder),
        providers := ReturnedProviders(fc.providers))
  }

  // --- numbers ---

  lemma {:induction false} ItoaReads(n: nat)
    ensures Digits(Itoa(n)) && Value(Itoa(n)) == n
  {
    var s := Itoa(n);
    if n >= 10 {
      ItoaReads(n / 10);
      assert s[..|s| - 1] == Itoa(n / 10);
    } else {
      assert s[..0] == "";
    }
  }

  lemma AtoiItoa(n: nat)
    requires n < INT64_END
    ensures Atoi(Itoa(n)) == Some(n)
  {
    ItoaReads(n);
    hide Itoa, Value;
    assert '0' <= Itoa(n)[0];
  }

  lemma NumeralIsValue(s: string)
    requires Numeral(s)
    ensures ValueText(s) && Tight(s, SPACES)
  {
    hide SPACES, CommentAt;
    SpacesAre(s[0]);
    SpacesAre(s[|s| - 1]);
    CommentFree(s, false);
  }

  lemma DigitsAreNumeral(s: string)
    requires Digits(s)
    ensures Numeral(s)
  {
  }

  // --- every written line through the lexer ---

  /** Each line is read as its counterpart. */
  predicate AllLex(lines: seq<Line>, kept: seq<Line>)
  {
    |lines| == |kept| && forall i :: 0 <= i < |lines| ==> Lexes(lines[i], kept[i])
  }

  lemma FieldLexes(indent: nat, key: string, t: string)
    requires KeyText(key) && ValueText(t)
    ensures Lexes(Field(indent, key, t), Field(indent, key, t))
  {
    KeyStart(key);
    KeyHasNoMarks(key);
    hide SPACES, CommentAt, Lexes;
    var s := key + ": " + t;
    SpacesAre(' ');
    CommentAfter(key + ": ", t);
    assert s[0] == key[0] && s[|s| - 1] == t[|t| - 1];
    PlainLexes(Field(indent, key, t));
  }

  lemma WordIsValue(s: string)
    requires KeyText(s)
    ensures ValueText(s)
  {
    hide SPACES, CommentAt;
    SpacesAre(s[0]);
    SpacesAre(s[|s| - 1]);
    CommentFree(s, false);
  }

  lemma HeadLexes(indent: nat, key: string)
    requires KeyText(key)
    ensures Lexes(Line(indent, key + ":"), Line(indent, key + ":"))
  {
    hide CommentAt, Lexes;
    var s := key + ":";
    assert s[|s| - 1] == ':' && s[0] == key[0];
    CommentFree(s, false);
    PlainLexes(Line(indent, s));
  }

  lemma TextLexes(indent: nat, prefix: string, s: string)
    requires prefix != "" && prefix[0] != ' ' && Printable(prefix) && '"' !in prefix && '#' !in prefix && Printable(s)
    ensures Lexes(Line(indent, prefix + YamlStr(s)), Line(indent, prefix + WrittenText(s)))
  {
    WrittenIsTight(s);
    hide YamlStr, Kept, LexLine, SPACES;
    assert Printable(prefix + YamlStr(s));
    LexPrefixed(indent, prefix, YamlStr(s));
  }

  lemma ScalarLexes(indent: nat, key: string, s: string)
    requires KeyText(key) && Printable(s)
    ensures Lexes(Field(indent, key, YamlStr(s)), Field(indent, key, WrittenText(s)))
  {
    KeyStart(key);
    KeyHasNoMarks(key);
    hide Lexes, YamlStr, WrittenText;
    TextLexes(indent, key + ": ", s);
  }

  lemma DashLexes(p: Provider)
    requires Printable(p.id)
    ensures Lexes(DashLine(YamlStr, p), DashLine(WrittenText, p))
  {
    hide Lexes, YamlStr, WrittenText;
    assert "- " + ("id" + ": " + YamlStr(p.id)) == "- id: " + YamlStr(p.id);
    assert "- " + ("id" + ": " + WrittenText(p.id)) == "- id: " + WrittenText(p.id);
    TextLexes(0, "- id: ", p.id);
  }

  lemma NumberLexes(indent: nat, key: string, ft: FloatText, x: Number)
    requires KeyText(key) && Faithful(ft)
    ensures Lexes(Field(indent, key, ft.format(x)), Field(indent, key, ft.format(x)))
  {
    hide ValueText, Lexes;
    NumeralIsValue(ft.format(x));
    FieldLexes(indent, key, ft.format(x));
  }

  lemma WhenLexes(printed: bool, line: Line, kept: Line, rest: seq<Line>, keptRest: seq<Line>)
    requires Lexes(line, kept) && AllLex(rest, keptRest)
    ensures AllLex(When(printed, line) + rest, When(printed, kept) + keptRest)
    ensures AllLex([line] + rest, [kept] + keptRest)
  {
    hide Lexes;
  }

  lemma PlanLexes(ft: FloatText, p: Plan, rest: seq<Line>, keptRest: seq<Line>)
    requires Faithful(ft) && PlanText(p) && AllLex(rest, keptRest)
    ensures AllLex(PlanLines(YamlStr, ft, p, rest), PlanLines(WrittenText, ft, p, keptRest))
  {
    hide AllLex, Lexes, When, Field, YamlStr, WrittenText, Printable;
    var cost, usd := Field(4, "cost", ft.format(p.cost)), Field(4, "cost_usd", ft.format(p.costUsd));
    NumberLexes(4, "cost", ft, p.cost);
    ScalarLexes(4, "currency", p.currency);
    ScalarLexes(4, "label", p.title);
    NumberLexes(4, "cost_usd", ft, p.costUsd);
    WhenLexes(p.hasCostUsd, usd, usd, rest, keptRest);
    var l3, k3 := When(p.hasCostUsd, usd) + rest, When(p.hasCostUsd, usd) + keptRest;
    var title, title2 := Field(4, "label", YamlStr(p.title)), Field(4, "label", WrittenText(p.title));
    WhenLexes(p.title != "", title, title2, l3, k3);
    var l2, k2 := When(p.title != "", title) + l3, When(p.title != "", title2) + k3;
    var currency, currency2 := Field(4, "currency", YamlStr(p.currency)), Field(4, "currency", WrittenText(p.currency));
    WhenLexes(p.currency != "", currency, currency2, l2, k2);
    WhenLexes(p.cost != ZERO, cost, cost, When(p.currency != "", currency) + l2,
              When(p.currency != "", currency2) + k2);
  }

  lemma PlanSectionLexes(ft: FloatText, p: Provider, rest: seq<Line>, keptRest: seq<Line>)
    requires Faithful(ft) && ProviderText(p) && AllLex(rest, keptRest)
    ensures AllLex(PlanSection(YamlStr, ft, p.plan, rest), PlanSection(WrittenText, ft, p.plan, keptRest))
  {
    hide AllLex, Lexes, YamlStr, WrittenText, Printable, PlanLines;
    if p.plan.Some? {
      HeadLexes(2, "plan");
      assert "plan" + ":" == "plan:";
      PlanLexes(ft, p.plan.value, rest, keptRest);
      WhenLexes(true, Line(2, "plan:"), Line(2, "plan:"), PlanLines(YamlStr, ft, p.plan.value, rest),
                PlanLines(WrittenText, ft, p.plan.value, keptRest));
    }
  }

  lemma ProviderLexes(ft: FloatText, p: Provider, rest: seq<Line>, keptRest: seq<Line>)
    requires Faithful(ft) && ProviderText(p) && AllLex(rest, keptRest)
    ensures AllLex([DashLine(YamlStr, p)] + ProviderTail(YamlStr, ft, p, rest),
                   [DashLine(WrittenText, p)] + ProviderTail(WrittenText, ft, p, keptRest))
  {
    hide AllLex, Lexes, When, Field, DashLine, YamlStr, WrittenText, Printable, PlanLines, Faithful;
    DashLexes(p);
    WordIsValue("false");
    WordIsValue("true");
    var off, probe := Field(2, "enabled", "false"), Field(2, "probe", if p.probe then "true" else "false");
    FieldLexes(2, "enabled", "false");
    ScalarLexes(2, "label", p.title);
    ScalarLexes(2, "key_env", p.keyEnv);
    FieldLexes(2, "probe", if p.probe then "true" else "false");
    PlanSectionLexes(ft, p, rest, keptRest);
    var l4, k4 := PlanSection(YamlStr, ft, p.plan, rest), PlanSection(WrittenText, ft, p.plan, keptRest);
    WhenLexes(p.hasProbe, probe, probe, l4, k4);
    var l3, k3 := When(p.hasProbe, probe) + l4, When(p.hasProbe, probe) + k4;
    var env, env2 := Field(2, "key_env", YamlStr(p.keyEnv)), Field(2, "key_env", WrittenText(p.keyEnv));
    WhenLexes(p.keyEnv != "", env, env2, l3, k3);
    var l2, k2 := When(p.keyEnv != "", env) + l3, When(p.keyEnv != "", env2) + k3;
    var title, title2 := Field(2, "label", YamlStr(p.title)), Field(2, "label", WrittenText(p.title));
    WhenLexes(p.title != "", title, title2, l2, k2);
    WhenLexes(!p.enabled, off, off, When(p.title != "", title) + l2, When(p.title != "", title2) + k2);
    WhenLexes(true, DashLine(YamlStr, p), DashLine(WrittenText, p), ProviderTail(YamlStr, ft, p, rest),
              ProviderTail(WrittenText, ft, p, keptRest));
  }

  lemma {:induction false} ProvidersLex(ft: FloatText, providers: seq<Provider>)
    requires Faithful(ft) && forall p :: p in providers ==> ProviderText(p)
    ensures AllLex(ProviderLines(YamlStr, ft, providers), ProviderLines(WrittenText, ft, providers))
  {
    hide Lexes, DashLine, ProviderTail, ProviderText, Faithful;
    if providers != [] {
      ProvidersLex(ft, providers[1..]);
      hide AllLex;
      ProviderLexes(ft, providers[0], ProviderLines(YamlStr, ft, providers[1..]),
                    ProviderLines(WrittenText, ft, providers[1..]));
    }
  }

  lemma DashIsPrintable()
    ensures Printable("- ")
  {
  }

  lemma {:induction false} OrderLexes(order: seq<string>, rest: seq<Line>, keptRest: seq<Line>)
    requires AllLex(rest, keptRest) && forall id :: id in order ==> Printable(id)
    ensures AllLex(OrderLines(YamlStr, order, rest), OrderLines(WrittenText, order, keptRest))
  {
    hide AllLex, Lexes, YamlStr, WrittenText, Printable;
    if order != [] {
      OrderLexes(order[1..], rest, keptRest);
      DashIsPrintable();
      TextLexes(2, "- ", order[0]);
      WhenLexes(true, Line(2, "- " + YamlStr(order[0])), Line(2, "- " + WrittenText(order[0])),
                OrderLines(YamlStr, order[1..], rest), OrderLines(WrittenText, order[1..], keptRest));
    }
  }

  lemma {:induction false} AlertsLex(ft: FloatText, alerts: map<string, Number>, keys: seq<string>, rest: seq<Line>,
                                     keptRest: seq<Line>)
    requires Faithful(ft) && AllLex(rest, keptRest) && forall k :: k in keys ==> KeyText(k)
    ensures AllLex(AlertLines(ft, alerts, keys, rest), AlertLines(ft, alerts, keys, keptRest))
  {
    hide AllLex, Lexes, Field, KeyText, Faithful;
    if keys != [] {
      AlertsLex(ft, alerts, keys[1..], rest, keptRest);
      if keys[0] in alerts {
        var line := Field(2, keys[0], ft.format(alerts[keys[0]]));
        NumberLexes(2, keys[0], ft, alerts[keys[0]]);
        WhenLexes(true, line, line, AlertLines(ft, alerts, keys[1..], rest),
                  AlertLines(ft, alerts, keys[1..], keptRest));
      }
    }
  }

  lemma AlertKeysAreText()
    ensures forall k :: k in ALERT_KEYS ==> KeyText(k)
  {
    assert KeyText(ALERT_KEYS[0]);
    assert KeyText(ALERT_KEYS[1]);
    assert KeyText(ALERT_KEYS[2]);
  }

  /** A block's head, when the block has lines. */
  lemma BlockLexes(key: string, head: string, lines: seq<Line>, kept: seq<Line>)
    requires KeyText(key) && head == key + ":" && AllLex(lines, kept)
    ensures AllLex([Line(0, head)] + lines, [Line(0, head)] + kept)
  {
    hide AllLex, Lexes, KeyText;
    HeadLexes(0, key);
    WhenLexes(true, Line(0, head), Line(0, head), lines, kept);
  }

  lemma NothingLexes()
    ensures AllLex([], [])
  {
  }

  lemma BlockKeys()
    ensures KeyText("providers") && KeyText("provider_order") && KeyText("alerts")
    ensures "providers" + ":" == "providers:" && "provider_order" + ":" == "provider_order:"
    ensures "alerts" + ":" == "alerts:"
  {
  }

  lemma SectionsLex(ft: FloatText, fc: FileConfig)
    requires Faithful(ft) && AllText(fc)
    ensures AllLex(Sections(YamlStr, ft, fc), Sections(WrittenText, ft, fc))
  {
    hide Lexes, AllLex, KeyText, Faithful, ProviderText, Printable, ProviderLines, OrderLines, AlertLines, ALERT_KEYS;
    AlertKeysAreText();
    BlockKeys();
    NothingLexes();
    ProvidersLex(ft, fc.providers);
    BlockLexes("providers", "providers:", ProviderLines(YamlStr, ft, fc.providers),
               ProviderLines(WrittenText, ft, fc.providers));
    var l2, k2 := ProviderSection(YamlStr, ft, fc.providers), ProviderSection(WrittenText, ft, fc.providers);
    OrderLexes(fc.providerOrder, l2, k2);
    BlockLexes("provider_order", "provider_order:", OrderLines(YamlStr, fc.providerOrder, l2),
               OrderLines(WrittenText, fc.providerOrder, k2));
    var l1, k1 := OrderSection(YamlStr, fc.providerOrder, l2), OrderSection(WrittenText, fc.providerOrder, k2);
    AlertsLex(ft, fc.alerts, ALERT_KEYS, l1, k1);
    BlockLexes("alerts", "alerts:", AlertLines(ft, fc.alerts, ALERT_KEYS, l1),
               AlertLines(ft, fc.alerts, ALERT_KEYS, k1));
  }

  lemma IntervalLexes(n: nat)
    ensures Lexes(Field(0, "interval_sec", Itoa(n)), Field(0, "interval_sec", Itoa(n)))
  {
    hide Lexes, ValueText;
    ItoaReads(n);
    DigitsAreNumeral(Itoa(n));
    NumeralIsValue(Itoa(n));
    FieldLexes(0, "interval_sec", Itoa(n));
  }

  lemma FileLexes(ft: FloatText, fc: FileConfig)
    requires Faithful(ft) && AllText(fc)
    ensures AllLex(FileLines(YamlStr, ft, fc), FileLines(WrittenText, ft, fc))
  {
    hide AllLex, Lexes, When, Field, YamlStr, WrittenText, Printable, ProviderText, Sections, Itoa, Positive;
    SectionsLex(ft, fc);
    var every := Field(0, "interval_sec", Itoa(Positive(fc.intervalSec)));
    IntervalLexes(Positive(fc.intervalSec));
    ScalarLexes(0, "listen", fc.listen);
    ScalarLexes(0, "tz", fc.tz);
    var tz, tz2 := Field(0, "tz", YamlStr(fc.tz)), Field(0, "tz", WrittenText(fc.tz));
    var l3, k3 := Sections(YamlStr, ft, fc), Sections(WrittenText, ft, fc);
    WhenLexes(fc.tz != "", tz, tz2, l3, k3);
    var l2, k2 := When(fc.tz != "", tz) + l3, When(fc.tz != "", tz2) + k3;
    var listen, listen2 := Field(0, "listen", YamlStr(fc.listen)), Field(0, "listen", WrittenText(fc.listen));
    WhenLexes(fc.listen != "", listen, listen2, l2, k2);
    WhenLexes(fc.intervalSec > 0, every, every, When(fc.listen != "", listen) + l2,
              When(fc.listen != "", listen2) + k2);
  }

  // --- reading back, block by block ---

  /** The lines after a block do not belong to it. */
  predicate Ends(rest: seq<Line>, indent: nat)
  {
    rest == [] || rest[0].indent < indent
  }

  lemma PlanStep(ft: FloatText, printed: bool, key: string, value: string, rest: seq<Line>, before: Plan, after: Plan)
    requires KeyText(key) && Tight(value, SPACES)
    requires if printed then PlanField(ft, before, key, value) == Some(after) else before == after
    ensures PlanFields(ft, When(printed, Field(4, key, value)) + rest, 4, before) == PlanFields(ft, rest, 4, after)
  {
    hide KeyText, SPACES, SplitKv, PlanField;
    if printed {
      SplitField(key, value);
      var lines := [Field(4, key, value)] + rest;
      assert lines[1..] == rest;
    } else {
      assert When(printed, Field(4, key, value)) + rest == rest;
    }
  }

  /** The value of a written scalar, and of a written number. */
  lemma ScalarValue(s: string)
    requires Printable(s)
    ensures WrittenText(s) != "" && Tight(WrittenText(s), SPACES) && Unquote(WrittenText(s)) == Returned(s)
  {
    hide WrittenText, SPACES;
    WrittenIsTight(s);
  }

  lemma NumberValue(ft: FloatText, x: Number)
    requires Faithful(ft)
    ensures ft.format(x) != "" && Tight(ft.format(x), SPACES) && ft.parse(ft.format(x)) == Some(x)
  {
    NumeralIsValue(ft.format(x));
  }

  lemma PlanFieldsEnd(ft: FloatText, rest: seq<Line>, p: Plan)
    requires Ends(rest, 4)
    ensures PlanFields(ft, rest, 4, p) == Some((p, rest))
  {
  }

  lemma PlanReads(ft: FloatText, p: Plan, rest: seq<Line>)
    requires Faithful(ft) && PlanText(p) && Ends(rest, 4)
    ensures PlanFields(ft, PlanLines(WrittenText, ft, p, rest), 4, EMPTY_PLAN)
            == Some((NormalPlan(ReturnedPlan(p)), rest))
  {
    hide SPACES, Printable, WrittenText, Returned, Unquote, Faithful, PlanFields, When, Field;
    EmptyReturns();
    ScalarValue(p.currency);
    ScalarValue(p.title);
    NumberValue(ft, p.cost);
    NumberValue(ft, p.costUsd);
    var l3 := When(p.hasCostUsd, Field(4, "cost_usd", ft.format(p.costUsd))) + rest;
    var l2 := When(p.title != "", Field(4, "label", WrittenText(p.title))) + l3;
    var l1 := When(p.currency != "", Field(4, "currency", WrittenText(p.currency))) + l2;
    var p1 := EMPTY_PLAN.(cost := p.cost);
    var p2 := p1.(currency := Returned(p.currency));
    var p3 := p2.(title := Returned(p.title));
    PlanStep(ft, p.cost != ZERO, "cost", ft.format(p.cost), l1, EMPTY_PLAN, p1);
    PlanStep(ft, p.currency != "", "currency", WrittenText(p.currency), l2, p1, p2);
    PlanStep(ft, p.title != "", "label", WrittenText(p.title), l3, p2, p3);
    PlanStep(ft, p.hasCostUsd, "cost_usd", ft.format(p.costUsd), rest, p3, NormalPlan(ReturnedPlan(p)));
    PlanFieldsEnd(ft, rest, NormalPlan(ReturnedPlan(p)));
  }

  lemma FieldsReturn(p: Plan)
    requires PlanText(p)
    ensures HasFields(ReturnedPlan(p)) == HasFields(p)
  {
    hide Returned, Printable;
    EmptyReturns();
    if p.currency != "" {
      NotEmptyReturns(p.currency);
    }
    if p.title != "" {
      NotEmptyReturns(p.title);
    }
  }

  lemma PlanStart(ft: FloatText, p: Plan, rest: seq<Line>)
    requires Ends(rest, 4)
    ensures var lines := PlanLines(WrittenText, ft, p, rest);
            if HasFields(p) then lines != [] && lines[0].indent == 4 else lines == rest
  {
    hide WrittenText;
  }

  /** A plan that prints no line is a block without fields, which the parser refuses. */
  lemma PlanSectionReads(ft: FloatText, p: Plan, rest: seq<Line>)
    requires Faithful(ft) && PlanText(p) && Ends(rest, 4)
    ensures var back := ReturnedPlan(p);
            PlanBlock(ft, PlanLines(WrittenText, ft, p, rest), 4)
            == if HasFields(back) then Some((NormalPlan(back), rest)) else None
  {
    PlanReads(ft, p, rest);
    PlanStart(ft, p, rest);
    FieldsReturn(p);
    hide PlanFields, PlanLines, Returned;
  }

  lemma ProviderStep(ft: FloatText, printed: bool, key: string, value: string, rest: seq<Line>,
                     before: Provider, after: Provider)
    requires KeyText(key) && Tight(value, SPACES) && key != "plan"
    requires if printed then ProviderField(before, key, value) == Some(after) else before == after
    ensures ProviderFields(ft, When(printed, Field(2, key, value)) + rest, 2, before)
            == ProviderFields(ft, rest, 2, after)
  {
    hide KeyText, SPACES, SplitKv, ProviderField;
    if printed {
      SplitField(key, value);
      var lines := [Field(2, key, value)] + rest;
      assert lines[1..] == rest;
    } else {
      assert When(printed, Field(2, key, value)) + rest == rest;
    }
  }

  /** The lines of an item from its key name on; a refused field is refused wherever it stands. */
  function ProviderEnd(ft: FloatText, p: Provider, rest: seq<Line>): seq<Line>
  {
    When(p.keyEnv != "", Field(2, "key_env", WrittenText(p.keyEnv)))
    + (When(p.hasProbe, Field(2, "probe", if p.probe then "true" else "false"))
       + PlanSection(WrittenText, ft, p.plan, rest))
  }

  lemma BoolValue(b: bool)
    ensures var s := if b then "true" else "false"; ParseBool(s) == Some(b) && Tight(s, SPACES) && s != ""
  {
    hide SPACES;
    SpacesAre('t');
    SpacesAre('f');
    SpacesAre('e');
  }

  lemma EmptyKeyEnv()
    ensures !LooksLikeKey("")
  {
  }

  lemma KeyRefused(ft: FloatText, p: Provider, rest: seq<Line>, before: Provider)
    requires LooksLikeKey(Returned(p.keyEnv)) && Printable(p.keyEnv)
    ensures ProviderFields(ft, When(p.keyEnv != "", Field(2, "key_env", WrittenText(p.keyEnv))) + rest, 2, before)
            == None
  {
    hide SPACES, Printable, WrittenText, Returned, Unquote, LooksLikeKey, SplitKv;
    EmptyKeyEnv();
    EmptyReturns();
    ScalarValue(p.keyEnv);
    SplitField("key_env", WrittenText(p.keyEnv));
    var lines := [Field(2, "key_env", WrittenText(p.keyEnv))] + rest;
    assert ProviderField(before, "key_env", WrittenText(p.keyEnv)) == None;
  }

  lemma HeadSplits(key: string)
    requires KeyText(key)
    ensures SplitKv(key + ":") == Some((key, ""))
  {
    forall c | c in key
      ensures c !in SPACES && c != ':'
    {
      SpacesAre(c);
    }
    hide SPACES, KeyText;
    FindAppend(key, ':', "");
    var s := key + ":";
    assert s == key + [':'] + "" && s[..|key|] == key && s[|key| + 1..] == "";
    assert key != "";
    TrimTight(key);
    TrimTight("");
  }

  lemma PlanHeadSplits()
    ensures SplitKv("plan:") == Some(("plan", ""))
  {
    HeadSplits("plan");
    assert "plan" + ":" == "plan:";
  }

  lemma PlanOfProvider(ft: FloatText, plan: Option<Plan>, rest: seq<Line>, p: Provider)
    requires Faithful(ft) && (plan.Some? ==> PlanText(plan.value)) && Ends(rest, 2) && p.plan == None
    ensures ProviderFields(ft, PlanSection(WrittenText, ft, plan, rest), 2, p)
            == if plan.None? then Some((p, rest))
               else if HasFields(ReturnedPlan(plan.value)) then
                 Some((p.(plan := Some(NormalPlan(ReturnedPlan(plan.value)))), rest))
               else None
  {
    hide Faithful, PlanText, HasFields, NormalPlan, ReturnedPlan, PlanLines, PlanBlock, SplitKv;
    if plan.Some? {
      PlanSectionReads(ft, plan.value, rest);
      PlanHeadSplits();
      var body := PlanLines(WrittenText, ft, plan.value, rest);
      var lines := [Line(2, "plan:")] + body;
      assert lines[1..] == body;
    }
  }

  lemma ProviderEndReads(ft: FloatText, p: Provider, rest: seq<Line>, p2: Provider)
    requires Faithful(ft) && ProviderText(p) && Ends(rest, 2)
    requires p2.keyEnv == "" && !p2.hasProbe && !p2.probe && p2.plan == None
    ensures var back := ReturnedProvider(p);
            ProviderFields(ft, ProviderEnd(ft, p, rest), 2, p2)
            == if ReadableProvider(back) then
                 Some((p2.(keyEnv := back.keyEnv, probe := p.hasProbe && p.probe, hasProbe := p.hasProbe,
                           plan := NormalProvider(back).plan), rest))
               else None
  {
    hide SPACES, Printable, WrittenText, Returned, Unquote, Faithful, ProviderFields, When, Field, LooksLikeKey,
         PlanText, HasFields, NormalPlan, ReturnedPlan, PlanSection;
    EmptyReturns();
    ScalarValue(p.keyEnv);
    var probe := if p.probe then "true" else "false";
    BoolValue(p.probe);
    EmptyKeyEnv();
    var l4 := PlanSection(WrittenText, ft, p.plan, rest);
    var l3 := When(p.hasProbe, Field(2, "probe", probe)) + l4;
    var p3 := p2.(keyEnv := Returned(p.keyEnv));
    var p4 := p3.(probe := p.hasProbe && p.probe, hasProbe := p.hasProbe);
    if LooksLikeKey(Returned(p.keyEnv)) {
      KeyRefused(ft, p, l3, p2);
    } else {
      ProviderStep(ft, p.keyEnv != "", "key_env", WrittenText(p.keyEnv), l3, p2, p3);
      ProviderStep(ft, p.hasProbe, "probe", probe, l4, p3, p4);
      PlanOfProvider(ft, p.plan, rest, p4);
    }
  }

  /** An item's lines up to a line that does not belong to it. */
  lemma ProviderReads(ft: FloatText, p: Provider, rest: seq<Line>)
    requires Faithful(ft) && ProviderText(p) && Ends(rest, 2)
    ensures var back := ReturnedProvider(p);
            ProviderFields(ft, ProviderTail(WrittenText, ft, p, rest), 2, EMPTY_PROVIDER.(id := back.id))
            == if ReadableProvider(back) then Some((NormalProvider(back), rest)) else None
  {
    hide SPACES, Printable, WrittenText, Returned, Unquote, Faithful, ProviderFields, When, Field, ReadableProvider,
         NormalPlan, ReturnedPlan, PlanSection;
    EmptyReturns();
    ScalarValue(p.title);
    BoolValue(false);
    var l2 := ProviderEnd(ft, p, rest);
    var l1 := When(p.title != "", Field(2, "label", WrittenText(p.title))) + l2;
    var p0 := EMPTY_PROVIDER.(id := Returned(p.id));
    var p1 := p0.(enabled := p.enabled);
    var p2 := p1.(title := Returned(p.title));
    ProviderStep(ft, !p.enabled, "enabled", "false", l1, p0, p1);
    ProviderStep(ft, p.title != "", "label", WrittenText(p.title), l2, p1, p2);
    ProviderEndReads(ft, p, rest, p2);
  }

  lemma DashReads(p: Provider)
    requires Printable(p.id)
    ensures IsItem(DashLine(WrittenText, p), 0)
    ensures DashField(DashLine(WrittenText, p).content) == Some(EMPTY_PROVIDER.(id := Returned(p.id)))
  {
    hide SPACES, Printable, WrittenText, Returned, Unquote, SplitKv;
    ScalarValue(p.id);
    SplitField("id", WrittenText(p.id));
    assert ("- " + ("id" + ": " + WrittenText(p.id)))[2..] == "id" + ": " + WrittenText(p.id);
  }

  lemma AllReadableMore(p: Provider, others: seq<Provider>)
    ensures AllReadable([p] + others) <==> ReadableProvider(p) && AllReadable(others)
    ensures NormalProviders([p] + others) == [NormalProvider(p)] + NormalProviders(others)
  {
    hide ReadableProvider, NormalProvider;
    var all := [p] + others;
    assert p in all;
    assert all[1..] == others;
  }

  lemma IdIsText(p: Provider)
    requires ProviderText(p)
    ensures Printable(p.id)
  {
  }

  lemma RestEnds(ft: FloatText, providers: seq<Provider>)
    ensures Ends(ProviderLines(WrittenText, ft, providers), 2)
  {
    hide ProviderTail, WrittenText;
  }

  lemma {:induction false} ProvidersRead(ft: FloatText, providers: seq<Provider>, acc: seq<Provider>)
    requires Faithful(ft) && forall p :: p in providers ==> ProviderText(p)
    ensures var back := ReturnedProviders(providers);
            ProviderItems(ft, ProviderLines(WrittenText, ft, providers), 0, acc)
            == if AllReadable(back) then Some((acc + NormalProviders(back), [])) else None
  {
    hide Faithful, DashField, DashLine, IsItem, ProviderTail, ProviderFields, ProviderText, ReadableProvider,
         NormalProvider, Returned;
    if providers == [] {
      assert acc + NormalProviders([]) == acc;
    } else {
      var p, rest := providers[0], ProviderLines(WrittenText, ft, providers[1..]);
      assert ProviderText(p);
      IdIsText(p);
      DashReads(p);
      RestEnds(ft, providers[1..]);
      ProviderReads(ft, p, rest);
      var lines := [DashLine(WrittenText, p)] + ProviderTail(WrittenText, ft, p, rest);
      assert lines[1..] == ProviderTail(WrittenText, ft, p, rest);
      var back := ReturnedProvider(p);
      var others := ReturnedProviders(providers[1..]);
      AllReadableMore(back, others);
      if ReadableProvider(back) {
        ProvidersRead(ft, providers[1..], acc + [NormalProvider(back)]);
        assert acc + [NormalProvider(back)] + NormalProviders(others)
             == acc + ([NormalProvider(back)] + NormalProviders(others));
      }
    }
  }

  lemma {:induction false} OrderReads(order: seq<string>, rest: seq<Line>, acc: seq<string>)
    requires Ends(rest, 2) && forall id :: id in order ==> Printable(id)
    ensures StringItems(OrderLines(WrittenText, order, rest), 2, acc) == (acc + ReturnedOrder(order), rest)
  {
    hide SPACES, Printable, WrittenText, Returned, Unquote, TrimSpace;
    if order == [] {
      assert acc + [] == acc;
    } else {
      ScalarValue(order[0]);
      TrimTight(WrittenText(order[0]));
      var lines := [Line(2, "- " + WrittenText(order[0]))] + OrderLines(WrittenText, order[1..], rest);
      assert lines[1..] == OrderLines(WrittenText, order[1..], rest);
      assert lines[0].content[2..] == WrittenText(order[0]);
      OrderReads(order[1..], rest, acc + [Returned(order[0])]);
      assert acc + [Returned(order[0])] + ReturnedOrder(order[1..])
             == acc + ([Returned(order[0])] + ReturnedOrder(order[1..]));
    }
  }

  function Restrict(alerts: map<string, Number>, keys: seq<string>): map<string, Number>
  {
    map k | k in alerts && k in keys :: alerts[k]
  }

  lemma RestrictStep(alerts: map<string, Number>, keys: seq<string>, m: map<string, Number>)
    ensures keys == [] ==> m + Restrict(alerts, keys) == m
    ensures keys != [] && keys[0] in alerts ==>
              m[keys[0] := alerts[keys[0]]] + Restrict(alerts, keys[1..]) == m + Restrict(alerts, keys)
    ensures keys != [] && keys[0] !in alerts ==> Restrict(alerts, keys[1..]) == Restrict(alerts, keys)
  {
    if keys != [] {
      assert keys == [keys[0]] + keys[1..];
    }
  }

  lemma AlertStep(ft: FloatText, key: string, x: Number, rest: seq<Line>, m: map<string, Number>)
    requires Faithful(ft) && KeyText(key) && ValidAlertKey(key)
    ensures AlertItems(ft, [Field(2, key, ft.format(x))] + rest, m) == AlertItems(ft, rest, m[key := x])
  {
    hide SPACES, KeyText, ValidAlertKey, SplitKv, Faithful;
    NumberValue(ft, x);
    SplitField(key, ft.format(x));
    var lines := [Field(2, key, ft.format(x))] + rest;
    assert lines[1..] == rest;
  }

  lemma {:induction false} AlertsRead(ft: FloatText, alerts: map<string, Number>, keys: seq<string>, rest: seq<Line>,
                                      m: map<string, Number>)
    requires Faithful(ft) && Ends(rest, 2) && forall k :: k in keys ==> KeyText(k) && ValidAlertKey(k)
    ensures AlertItems(ft, AlertLines(ft, alerts, keys, rest), m)
            == Some((m + Restrict(alerts, keys), rest))
  {
    hide SPACES, KeyText, ValidAlertKey, SplitKv, Faithful, ALERT_KEYS;
    hide Restrict, Field;
    RestrictStep(alerts, keys, m);
    if keys != [] {
      var key := keys[0];
      if key in alerts {
        AlertStep(ft, key, alerts[key], AlertLines(ft, alerts, keys[1..], rest), m);
        AlertsRead(ft, alerts, keys[1..], rest, m[key := alerts[key]]);
      } else {
        AlertsRead(ft, alerts, keys[1..], rest, m);
      }
    }
  }

  // --- the whole file ---

  lemma TopStep(ft: FloatText, printed: bool, key: string, value: string, rest: seq<Line>,
                before: FileConfig, after: FileConfig)
    requires KeyText(key) && Tight(value, SPACES) && !IsBlockKey(key)
    requires if printed then TopScalar(before, key, value) == Some(after) else before == after
    ensures TopLevel(ft, When(printed, Field(0, key, value)) + rest, before) == TopLevel(ft, rest, after)
  {
    hide KeyText, SPACES, SplitKv, TopScalar, TopBlock;
    if printed {
      SplitField(key, value);
      var lines := [Field(0, key, value)] + rest;
      assert lines[1..] == rest;
    } else {
      assert When(printed, Field(0, key, value)) + rest == rest;
    }
  }

  lemma BlockStep(ft: FloatText, key: string, body: seq<Line>, fc: FileConfig)
    requires KeyText(key) && IsBlockKey(key)
    ensures var b := TopBlock(ft, body, fc, key);
            TopLevel(ft, [Line(0, key + ":")] + body, fc)
            == if b.None? then None else TopLevel(ft, b.value.1, b.value.0)
  {
    hide KeyText, SplitKv, TopScalar, TopBlock;
    HeadSplits(key);
    var lines := [Line(0, key + ":")] + body;
    assert lines[1..] == body;
  }

  lemma RestStarts(ft: FloatText, providers: seq<Provider>)
    requires providers != []
    ensures ProviderLines(WrittenText, ft, providers) != [] && ProviderLines(WrittenText, ft, providers)[0].indent == 0
  {
    hide ProviderTail, WrittenText;
  }

  lemma ProviderSectionReads(ft: FloatText, providers: seq<Provider>, fc: FileConfig)
    requires Faithful(ft) && (forall p :: p in providers ==> ProviderText(p)) && fc.providers == []
    ensures var back := ReturnedProviders(providers);
            TopLevel(ft, ProviderSection(WrittenText, ft, providers), fc)
            == if AllReadable(back) then Some(fc.(providers := NormalProviders(back))) else None
  {
    hide Faithful, ProviderText, ProviderItems, ProviderTail, DashLine, ReadableProvider, NormalProvider, KeyText,
         TopScalar, SplitKv, ReturnedProvider;
    if providers == [] {
    } else {
      ProvidersRead(ft, providers, []);
      var normal := NormalProviders(ReturnedProviders(providers));
      assert [] + normal == normal;
      BlockKeys();
      BlockStep(ft, "providers", ProviderLines(WrittenText, ft, providers), fc);
      RestStarts(ft, providers);
    }
  }

  lemma OrderSectionReads(ft: FloatText, order: seq<string>, rest: seq<Line>, fc: FileConfig)
    requires Ends(rest, 2) && (forall id :: id in order ==> Printable(id)) && fc.providerOrder == []
    ensures TopLevel(ft, OrderSection(WrittenText, order, rest), fc)
            == TopLevel(ft, rest, fc.(providerOrder := ReturnedOrder(order)))
  {
    hide Printable, StringItems, WrittenText, Returned, TopLevel, KeyText;
    if order == [] {
    } else {
      OrderReads(order, rest, []);
      assert [] + ReturnedOrder(order) == ReturnedOrder(order);
      BlockKeys();
      BlockStep(ft, "provider_order", OrderLines(WrittenText, order, rest), fc);
      assert OrderLines(WrittenText, order, rest)[0].indent == 2;
    }
  }

  lemma {:induction false} AlertsStart(ft: FloatText, alerts: map<string, Number>, keys: seq<string>, rest: seq<Line>)
    ensures var lines := AlertLines(ft, alerts, keys, rest);
            if exists k :: k in keys && k in alerts then lines != [] && lines[0].indent == 2 else lines == rest
  {
    if keys != [] {
      AlertsStart(ft, alerts, keys[1..], rest);
      assert keys == [keys[0]] + keys[1..];
    }
  }

  /** A map that holds only keys the printer does not write leaves a head without entries, which is refused. */
  lemma AlertSectionReads(ft: FloatText, alerts: map<string, Number>, rest: seq<Line>, fc: FileConfig)
    requires Faithful(ft) && Ends(rest, 2) && fc.alerts == map[]
    ensures TopLevel(ft, AlertSection(ft, alerts, rest), fc)
            == if alerts == map[] || exists k :: k in ALERT_KEYS && k in alerts
               then TopLevel(ft, rest, fc.(alerts := PrintedAlerts(alerts))) else None
  {
    hide Faithful, AlertItems, TopLevel, KeyText, ALERT_KEYS;
    if alerts == map[] {
      assert PrintedAlerts(alerts) == map[];
    } else {
      AlertKeysAreText();
      AlertsRead(ft, alerts, ALERT_KEYS, rest, map[]);
      assert map[] + Restrict(alerts, ALERT_KEYS) == PrintedAlerts(alerts);
      assert map[] + PrintedAlerts(alerts) == PrintedAlerts(alerts);
      BlockKeys();
      BlockStep(ft, "alerts", AlertLines(ft, alerts, ALERT_KEYS, rest), fc);
      AlertsStart(ft, alerts, ALERT_KEYS, rest);
    }
  }

  lemma SectionsRead(ft: FloatText, fc: FileConfig, before: FileConfig)
    requires Faithful(ft) && AllText(fc)
    requires before.alerts == map[] && before.providers == [] && before.providerOrder == []
    ensures TopLevel(ft, Sections(WrittenText, ft, fc), before)
            == if AllReadable(ReturnedProviders(fc.providers))
                  && (fc.alerts == map[] || exists k :: k in ALERT_KEYS && k in fc.alerts)
               then Some(before.(alerts := PrintedAlerts(fc.alerts), providerOrder := ReturnedOrder(fc.providerOrder),
                                 providers := NormalProviders(ReturnedProviders(fc.providers))))
               else None
  {
    hide Faithful, Printable, ProviderText, ReturnedProviders, ReturnedOrder, AllReadable, PrintedAlerts,
         NormalProviders, TopLevel, ProviderLines, OrderLines, AlertLines, ALERT_KEYS;
    var providers := ProviderSection(WrittenText, ft, fc.providers);
    var order := OrderSection(WrittenText, fc.providerOrder, providers);
    var b1 := before.(alerts := PrintedAlerts(fc.alerts));
    AlertSectionReads(ft, fc.alerts, order, before);
    OrderSectionReads(ft, fc.providerOrder, providers, b1);
    ProviderSectionReads(ft, fc.providers, b1.(providerOrder := ReturnedOrder(fc.providerOrder)));
  }

  lemma ItoaValue(n: nat)
    ensures Itoa(n) != "" && Tight(Itoa(n), SPACES)
  {
    hide SPACES;
    ItoaReads(n);
    DigitsAreNumeral(Itoa(n));
    NumeralIsValue(Itoa(n));
  }

  lemma FileReads(ft: FloatText, fc: FileConfig)
    requires Faithful(ft) && AllText(fc)
    ensures TopLevel(ft, FileLines(WrittenText, ft, fc), EMPTY_CONFIG)
            == if AllReadable(ReturnedProviders(fc.providers))
                  && (fc.alerts == map[] || exists k :: k in ALERT_KEYS && k in fc.alerts)
               then Some(Normal(ReturnedConfig(fc))) else None
  {
    EmptyReturns();
    hide SPACES, Printable, WrittenText, Returned, ReturnedProviders, ReturnedOrder, Unquote, Faithful, TopLevel,
         When, Field, Sections, AllReadable, PrintedAlerts, NormalProviders, Itoa, Atoi, ALERT_KEYS;
    ScalarValue(fc.listen);
    ScalarValue(fc.tz);
    AtoiItoa(Positive(fc.intervalSec));
    ItoaValue(Positive(fc.intervalSec));
    var interval := Itoa(Positive(fc.intervalSec));
    var l2 := When(fc.tz != "", Field(0, "tz", WrittenText(fc.tz))) + Sections(WrittenText, ft, fc);
    var l1 := When(fc.listen != "", Field(0, "listen", WrittenText(fc.listen))) + l2;
    var c1 := EMPTY_CONFIG.(intervalSec := Positive(fc.intervalSec));
    var c2 := c1.(listen := Returned(fc.listen));
    var c3 := c2.(tz := Returned(fc.tz));
    TopStep(ft, fc.intervalSec > 0, "interval_sec", interval, l1, EMPTY_CONFIG, c1);
    TopStep(ft, fc.listen != "", "listen", WrittenText(fc.listen), l2, c1, c2);
    TopStep(ft, fc.tz != "", "tz", WrittenText(fc.tz), Sections(WrittenText, ft, fc), c2, c3);
    SectionsRead(ft, fc, c3);
  }

  lemma SameIds(providers: seq<Provider>)
    ensures ValidIds(NormalProviders(providers)) == ValidIds(providers)
  {
    var normal := NormalProviders(providers);
    assert forall i :: 0 <= i < |providers| ==> normal[i].id == providers[i].id;
  }

  /** The law, for all printable settings: the written file is accepted exactly when the settings are readable with
      their strings as they come back, and what is read is the normal form of that. */
  lemma SaveThenLoad(ft: FloatText, fc: FileConfig)
    requires Faithful(ft) && AllText(fc)
    ensures var back := ReturnedConfig(fc);
            Parse(ft, Serialize(ft, fc)) == if Readable(back) then Some(Normal(back)) else None
  {
    hide Faithful, AllText, FileLines, TopLevel, ReadableProvider, Lexes, Render, LexFrom, NormalProviders,
         PrintedAlerts, NormalProvider, Returned, ReturnedProviders, ReturnedOrder;
    var kept := FileLines(WrittenText, ft, fc);
    FileLexes(ft, fc);
    LexRenderFrom(FileLines(YamlStr, ft, fc), kept, []);
    assert [] + kept == kept;
    FileReads(ft, fc);
    SameIds(ReturnedProviders(fc.providers));
  }

  lemma ProviderReturnsIff(p: Provider)
    requires ProviderText(p)
    ensures ReturnedProvider(p) == p <==> ProviderScalars(p)
  {
    hide Returned, Survives, Printable;
    ReturnsIff(p.id);
    ReturnsIff(p.title);
    ReturnsIff(p.keyEnv);
    if p.plan.Some? {
      ReturnsIff(p.plan.value.currency);
      ReturnsIff(p.plan.value.title);
    }
  }

  lemma {:induction false} OrderReturnsIff(order: seq<string>)
    requires forall id :: id in order ==> Printable(id)
    ensures ReturnedOrder(order) == order <==> forall id :: id in order ==> Survives(id)
  {
    hide Returned, Survives, Printable;
    if order != [] {
      OrderReturnsIff(order[1..]);
      ReturnsIff(order[0]);
      var back := ReturnedOrder(order);
      assert order == [order[0]] + order[1..];
      assert back == [back[0]] + back[1..] && back[1..] == ReturnedOrder(order[1..]);
    }
  }

  lemma {:induction false} ProvidersReturnIff(providers: seq<Provider>)
    requires forall p :: p in providers ==> ProviderText(p)
    ensures ReturnedProviders(providers) == providers <==> forall p :: p in providers ==> ProviderScalars(p)
  {
    hide ReturnedProvider, ProviderScalars, ProviderText;
    if providers != [] {
      ProvidersReturnIff(providers[1..]);
      ProviderReturnsIff(providers[0]);
      var back := ReturnedProviders(providers);
      assert providers == [providers[0]] + providers[1..];
      assert back == [back[0]] + back[1..] && back[1..] == ReturnedProviders(providers[1..]);
    }
  }

  /** The settings come back with their strings exactly when each string survives. */
  lemma ConfigReturnsIff(fc: FileConfig)
    requires AllText(fc)
    ensures ReturnedConfig(fc) == fc <==> Scalars(fc)
  {
    hide Returned, Survives, Printable, ReturnedProvider, ProviderScalars, ProviderText;
    ReturnsIff(fc.listen);
    ReturnsIff(fc.tz);
    OrderReturnsIff(fc.providerOrder);
    ProvidersReturnIff(fc.providers);
    hide ReturnedOrder, ReturnedProviders;
  }

  lemma ScalarsAreText(fc: FileConfig)
    requires Scalars(fc)
    ensures AllText(fc)
  {
    hide NeedsQuotes, Printable;
    forall p | p in fc.providers
      ensures ProviderText(p)
    {
      assert ProviderScalars(p);
    }
  }

  /** Settings that come back unchanged: nothing set that is not written or not told apart from its default. */
  predicate WellFormed(fc: FileConfig)
  {
    && fc.intervalSec >= 0 && fc.deviceToken == ""
    && (forall k :: k in fc.alerts ==> k in ALERT_KEYS)
    && ValidIds(fc.providers)
    && (forall p :: p in fc.providers ==>
          && !LooksLikeKey(p.keyEnv) && (p.probe ==> p.hasProbe)
          && (p.plan.Some? ==> HasFields(p.plan.value) && (p.plan.value.hasCostUsd || p.plan.value.costUsd == ZERO)))
  }

  lemma SameProvider(p: Provider)
    ensures NormalProvider(ReturnedProvider(p)) == p ==> ReturnedProvider(p) == p
  {
    hide Returned;
  }

  /** The normal form changes no string, so what was changed by writing stays changed. */
  lemma SameStrings(fc: FileConfig)
    ensures Normal(ReturnedConfig(fc)) == fc ==> ReturnedConfig(fc) == fc
  {
    hide Returned, PrintedAlerts, ReturnedProviders, ReturnedOrder, NormalProviders;
    var providers := fc.providers;
    if NormalProviders(ReturnedProviders(providers)) == providers {
      forall i | 0 <= i < |providers|
        ensures ReturnedProviders(providers)[i] == providers[i]
      {
        SameProvider(providers[i]);
      }
    }
  }

  lemma AlertsIff(alerts: map<string, Number>)
    ensures PrintedAlerts(alerts) == alerts <==> forall k :: k in alerts ==> k in ALERT_KEYS
    ensures PrintedAlerts(alerts) == alerts && alerts != map[] ==> exists k :: k in ALERT_KEYS && k in alerts
  {
    hide ALERT_KEYS;
    if PrintedAlerts(alerts) == alerts && alerts != map[] {
      var k :| k in alerts;
      assert k in PrintedAlerts(alerts);
    }
  }

  lemma ProvidersIff(providers: seq<Provider>)
    ensures NormalProviders(providers) == providers <==> forall p :: p in providers ==> NormalProvider(p) == p
  {
    hide NormalProvider;
    var normal := NormalProviders(providers);
    if normal == providers {
      forall p | p in providers
        ensures NormalProvider(p) == p
      {
        var i :| 0 <= i < |providers| && providers[i] == p;
        assert normal[i] == NormalProvider(p);
      }
    }
    if forall p :: p in providers ==> NormalProvider(p) == p {
      forall i | 0 <= i < |providers|
        ensures normal[i] == providers[i]
      {
        assert providers[i] in providers;
      }
    }
  }

  lemma NormalIff(fc: FileConfig)
    ensures Readable(fc) && Normal(fc) == fc <==> WellFormed(fc)
  {
    hide LooksLikeKey, ALERT_KEYS, ValidIds, PrintedAlerts, NormalProviders, HasFields;
    AlertsIff(fc.alerts);
    ProvidersIff(fc.providers);
  }

  /** For printable settings, writing and reading returns the same settings exactly when they are well formed and each
      string survives. */
  lemma RoundTripIff(ft: FloatText, fc: FileConfig)
    requires Faithful(ft) && AllText(fc)
    ensures Parse(ft, Serialize(ft, fc)) == Some(fc) <==> WellFormed(fc) && Scalars(fc)
  {
    SaveThenLoad(ft, fc);
    ConfigReturnsIff(fc);
    NormalIff(fc);
    SameStrings(fc);
    hide Faithful, AllText, Scalars, Parse, Serialize, Readable, Normal, WellFormed;
  }
}
