/** One settings file line by line: which keys are written, in which order and at which indentation. */
module YamlExample {
  import opened Bytes
  import opened YamlText
  import opened YamlScalar
  import opened YamlParse
  import opened YamlConfig

  const LOW := Number(1)
  const FIVE := Number(2)
  const WEEKLY := Number(3)
  const COST := Number(4)
  const COST_USD := Number(5)

  const ALERTS: map<string, Number> := map["quota_warn_weekly_pct" := WEEKLY, "quota_warn_5h_pct" := FIVE,
                                           "openrouter_low_usd" := LOW]

  const CODEX := Provider("codex", false, "ChatGPT", "CODEX_KEY", true, true,
                          Some(Plan(COST, "BRL", COST_USD, true, "Plus")))

  const EXAMPLE := FileConfig(900, "0.0.0.0:80", "secret", "UTC", ALERTS, [CODEX], ["codex"])

  lemma OneField(indent: nat, key: string, prefix: string, value: string)
    requires prefix == key + ": "
    ensures Field(indent, key, value) == Line(indent, prefix + value)
  {
  }

  function PlanExample(w: Writer, ft: FloatText): seq<Line>
  {
    [Line(4, "cost: " + ft.format(COST)), Line(4, "currency: " + w("BRL")), Line(4, "label: " + w("Plus")),
     Line(4, "cost_usd: " + ft.format(COST_USD))]
  }

  lemma PlanGives()
    ensures CODEX.plan == Some(Plan(COST, "BRL", COST_USD, true, "Plus")) && COST != ZERO
    ensures "BRL" != "" && "Plus" != ""
  {
    assert |"BRL"| == 3 && |"Plus"| == 4;
  }

  lemma FourLines(a: Line, b: Line, c: Line, d: Line)
    ensures [a] + ([b] + ([c] + ([d] + []))) == [a, b, c, d]
  {
  }

  lemma PlanIs(w: Writer, ft: FloatText)
    ensures PlanLines(w, ft, CODEX.plan.value, []) == PlanExample(w, ft)
  {
    PlanGives();
    hide Field, CODEX;
    var cost, currency := Field(4, "cost", ft.format(COST)), Field(4, "currency", w("BRL"));
    var title, usd := Field(4, "label", w("Plus")), Field(4, "cost_usd", ft.format(COST_USD));
    FourLines(cost, currency, title, usd);
    OneField(4, "cost", "cost: ", ft.format(COST));
    OneField(4, "currency", "currency: ", w("BRL"));
    OneField(4, "label", "label: ", w("Plus"));
    OneField(4, "cost_usd", "cost_usd: ", ft.format(COST_USD));
    assert PlanLines(w, ft, CODEX.plan.value, []) == [cost] + ([currency] + ([title] + ([usd] + [])));
  }

  function ProviderExample(w: Writer, ft: FloatText): seq<Line>
  {
    [Line(0, "- id: " + w("codex")), Line(2, "enabled: false"), Line(2, "label: " + w("ChatGPT")),
     Line(2, "key_env: " + w("CODEX_KEY")), Line(2, "probe: true"), Line(2, "plan:")]
    + PlanExample(w, ft)
  }

  lemma TailIs(w: Writer, ft: FloatText)
    ensures [Line(0, "- id: " + w("codex"))] + ProviderTail(w, ft, CODEX, []) == ProviderExample(w, ft)
  {
    PlanIs(w, ft);
    OneField(2, "enabled", "enabled: ", "false");
    OneField(2, "label", "label: ", w("ChatGPT"));
    OneField(2, "key_env", "key_env: ", w("CODEX_KEY"));
    OneField(2, "probe", "probe: ", "true");
    assert "enabled: " + "false" == "enabled: false" && "probe: " + "true" == "probe: true";
    hide Field, PlanLines, PlanExample;
  }

  lemma DashIs(w: Writer)
    ensures DashLine(w, CODEX) == Line(0, "- id: " + w("codex"))
  {
    assert "- " + ("id" + ": " + w("codex")) == "- id: " + w("codex");
  }

  lemma ProvidersAre(w: Writer, ft: FloatText)
    ensures ProviderSection(w, ft, [CODEX]) == [Line(0, "providers:")] + ProviderExample(w, ft)
  {
    TailIs(w, ft);
    DashIs(w);
    hide ProviderTail, ProviderExample, DashLine;
    assert [CODEX][1..] == [] && ProviderLines(w, ft, []) == [];
    assert ProviderLines(w, ft, [CODEX]) == [DashLine(w, CODEX)] + ProviderTail(w, ft, CODEX, []);
  }

  lemma KeysDiffer()
    ensures "openrouter_low_usd" in ALERTS && ALERTS["openrouter_low_usd"] == LOW
    ensures "quota_warn_5h_pct" in ALERTS && ALERTS["quota_warn_5h_pct"] == FIVE
    ensures "quota_warn_weekly_pct" in ALERTS && ALERTS["quota_warn_weekly_pct"] == WEEKLY
  {
    assert |"openrouter_low_usd"| == 18 && |"quota_warn_5h_pct"| == 17 && |"quota_warn_weekly_pct"| == 21;
  }

  lemma AlertsAre(ft: FloatText, rest: seq<Line>)
    ensures AlertSection(ft, ALERTS, rest)
            == [Line(0, "alerts:")] + ([Line(2, "openrouter_low_usd: " + ft.format(LOW))]
               + ([Line(2, "quota_warn_5h_pct: " + ft.format(FIVE))]
               + ([Line(2, "quota_warn_weekly_pct: " + ft.format(WEEKLY))] + rest)))
  {
    KeysDiffer();
    OneField(2, "openrouter_low_usd", "openrouter_low_usd: ", ft.format(LOW));
    OneField(2, "quota_warn_5h_pct", "quota_warn_5h_pct: ", ft.format(FIVE));
    OneField(2, "quota_warn_weekly_pct", "quota_warn_weekly_pct: ", ft.format(WEEKLY));
    hide Field;
    hide ALERTS;
    var keys1, keys2 := ["quota_warn_5h_pct", "quota_warn_weekly_pct"], ["quota_warn_weekly_pct"];
    assert ALERT_KEYS[1..] == keys1 && keys1[1..] == keys2 && keys2[1..] == [];
    assert AlertLines(ft, ALERTS, keys2, rest) == [Line(2, "quota_warn_weekly_pct: " + ft.format(WEEKLY))] + rest;
    assert AlertLines(ft, ALERTS, keys1, rest)
           == [Line(2, "quota_warn_5h_pct: " + ft.format(FIVE))] + AlertLines(ft, ALERTS, keys2, rest);
    assert ALERTS != map[];
  }

  lemma OrderIs(w: Writer, rest: seq<Line>)
    ensures OrderSection(w, ["codex"], rest) == [Line(0, "provider_order:")] + ([Line(2, "- " + w("codex"))] + rest)
  {
    assert ["codex"][1..] == [] && OrderLines(w, [], rest) == rest;
  }

  lemma IntervalIs()
    ensures Field(0, "interval_sec", Itoa(900)) == Line(0, "interval_sec: 900")
  {
    assert Itoa(9) == "9" && Itoa(90) == "90" && Itoa(900) == "900";
    assert "interval_sec: " + "900" == "interval_sec: 900";
    OneField(0, "interval_sec", "interval_sec: ", "900");
  }

  lemma TopIs(w: Writer, ft: FloatText, rest: seq<Line>)
    requires Sections(w, ft, EXAMPLE) == rest
    ensures FileLines(w, ft, EXAMPLE)
            == [Line(0, "interval_sec: 900")] + ([Line(0, "listen: " + w("0.0.0.0:80"))]
               + ([Line(0, "tz: " + w("UTC"))] + rest))
  {
    IntervalIs();
    OneField(0, "listen", "listen: ", w("0.0.0.0:80"));
    OneField(0, "tz", "tz: ", w("UTC"));
    assert |"0.0.0.0:80"| == 10 && |"UTC"| == 3;
    hide Field, Sections, Itoa, ALERTS, CODEX;
  }

  lemma ThreeAndThree(a: seq<Line>, b: seq<Line>, c: seq<Line>, d: seq<Line>, e: seq<Line>, f: seq<Line>)
    ensures a + (b + (c + (d + (e + f)))) == a + b + c + d + e + f
  {
  }

  /** Settings with everything the printer writes: these keys, in this order, at these indentations; the device token is
      not among them. */
  lemma ExampleLines(w: Writer, ft: FloatText)
    ensures FileLines(w, ft, EXAMPLE)
            == ([Line(0, "interval_sec: 900")] + [Line(0, "listen: " + w("0.0.0.0:80"))] + [Line(0, "tz: " + w("UTC"))]
                + [Line(0, "alerts:")] + [Line(2, "openrouter_low_usd: " + ft.format(LOW))]
                + ([Line(2, "quota_warn_5h_pct: " + ft.format(FIVE))]
                   + [Line(2, "quota_warn_weekly_pct: " + ft.format(WEEKLY))] + [Line(0, "provider_order:")]
                   + [Line(2, "- " + w("codex"))] + [Line(0, "providers:")] + ProviderExample(w, ft)))
  {
    var providers := ProviderSection(w, ft, [CODEX]);
    var order := OrderSection(w, ["codex"], providers);
    ProvidersAre(w, ft);
    OrderIs(w, providers);
    AlertsAre(ft, order);
    hide ProviderSection, OrderSection, AlertSection, ProviderExample, FileLines, Field;
    var sections := AlertSection(ft, ALERTS, order);
    TopIs(w, ft, sections);
    hide Sections, ALERTS, CODEX, EXAMPLE;
    var five, weekly := [Line(2, "quota_warn_5h_pct: " + ft.format(FIVE))],
                        [Line(2, "quota_warn_weekly_pct: " + ft.format(WEEKLY))];
    var tail := five + (weekly + ([Line(0, "provider_order:")]
                + ([Line(2, "- " + w("codex"))] + ([Line(0, "providers:")] + ProviderExample(w, ft)))));
    ThreeAndThree(five, weekly, [Line(0, "provider_order:")], [Line(2, "- " + w("codex"))], [Line(0, "providers:")],
                  ProviderExample(w, ft));
    ThreeAndThree([Line(0, "interval_sec: 900")], [Line(0, "listen: " + w("0.0.0.0:80"))], [Line(0, "tz: " + w("UTC"))],
                  [Line(0, "alerts:")], [Line(2, "openrouter_low_usd: " + ft.format(LOW))], tail);
  }
}
