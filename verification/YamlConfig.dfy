/** Writing the settings file, and what a restart reads back from it. */
module YamlConfig {
  import opened Bytes
  import opened YamlText
  import opened YamlScalar
  import opened YamlParse

  // --- the lines the printer writes, in front of the lines that follow them ---

  /** How the printer writes a scalar. The theorems also look at the same lines with another text in its place. */
  type Writer = string -> string

  function Field(indent: nat, key: string, value: string): Line
  {
    Line(indent, key + ": " + value)
  }

  function When(printed: bool, line: Line): seq<Line>
  {
    if printed then [line] else []
  }

  function PlanLines(w: Writer, ft: FloatText, p: Plan, rest: seq<Line>): seq<Line>
  {
    When(p.cost != ZERO, Field(4, "cost", ft.format(p.cost)))
    + (When(p.currency != "", Field(4, "currency", w(p.currency)))
    + (When(p.title != "", Field(4, "label", w(p.title)))
    + (When(p.hasCostUsd, Field(4, "cost_usd", ft.format(p.costUsd))) + rest)))
  }

  function PlanSection(w: Writer, ft: FloatText, plan: Option<Plan>, rest: seq<Line>): seq<Line>
  {
    if plan.None? then rest else [Line(2, "plan:")] + PlanLines(w, ft, plan.value, rest)
  }

  function ProviderTail(w: Writer, ft: FloatText, p: Provider, rest: seq<Line>): seq<Line>
  {
    When(!p.enabled, Field(2, "enabled", "false"))
    + (When(p.title != "", Field(2, "label", w(p.title)))
    + (When(p.keyEnv != "", Field(2, "key_env", w(p.keyEnv)))
    + (When(p.hasProbe, Field(2, "probe", if p.probe then "true" else "false"))
    + PlanSection(w, ft, p.plan, rest))))
  }

  function DashLine(w: Writer, p: Provider): Line
  {
    Line(0, "- " + ("id" + ": " + w(p.id)))
  }

  function ProviderLines(w: Writer, ft: FloatText, providers: seq<Provider>): seq<Line>
  {
    if providers == [] then []
    else [DashLine(w, providers[0])] + ProviderTail(w, ft, providers[0], ProviderLines(w, ft, providers[1..]))
  }

  function ProviderSection(w: Writer, ft: FloatText, providers: seq<Provider>): seq<Line>
  {
    if providers == [] then [] else [Line(0, "providers:")] + ProviderLines(w, ft, providers)
  }

  function OrderLines(w: Writer, order: seq<string>, rest: seq<Line>): seq<Line>
  {
    if order == [] then rest else [Line(2, "- " + w(order[0]))] + OrderLines(w, order[1..], rest)
  }

  function OrderSection(w: Writer, order: seq<string>, rest: seq<Line>): seq<Line>
  {
    if order == [] then rest else [Line(0, "provider_order:")] + OrderLines(w, order, rest)
  }

  function AlertLines(ft: FloatText, alerts: map<string, Number>, keys: seq<string>, rest: seq<Line>): seq<Line>
  {
    if keys == [] then rest
    else if keys[0] in alerts then
      [Field(2, keys[0], ft.format(alerts[keys[0]]))] + AlertLines(ft, alerts, keys[1..], rest)
    else AlertLines(ft, alerts, keys[1..], rest)
  }

  function AlertSection(ft: FloatText, alerts: map<string, Number>, rest: seq<Line>): seq<Line>
  {
    if alerts == map[] then rest else [Line(0, "alerts:")] + AlertLines(ft, alerts, ALERT_KEYS, rest)
  }

  function Sections(w: Writer, ft: FloatText, fc: FileConfig): seq<Line>
  {
    AlertSection(ft, fc.alerts, OrderSection(w, fc.providerOrder, ProviderSection(w, ft, fc.providers)))
  }

  function Positive(n: int): (r: nat)
    ensures n >= 0 ==> r == n
  {
    if n > 0 then n else 0
  }

  /** Every line of the file; the device token is never written. */
  function FileLines(w: Writer, ft: FloatText, fc: FileConfig): seq<Line>
  {
    When(fc.intervalSec > 0, Field(0, "interval_sec", Itoa(Positive(fc.intervalSec))))
    + (When(fc.listen != "", Field(0, "listen", w(fc.listen)))
    + (When(fc.tz != "", Field(0, "tz", w(fc.tz))) + Sections(w, ft, fc)))
  }

  function Serialize(ft: FloatText, fc: FileConfig): string
  {
    Render(FileLines(YamlStr, ft, fc))
  }

  // --- the printer's loops ---

  lemma RenderOne(line: Line, rest: seq<Line>)
    ensures Render([line] + rest) == Print(line) + Render(rest)
  {
    assert ([line] + rest)[1..] == rest;
  }

  /** Writes an optional line: what is still to print shrinks by what was printed. */
  method Emit(out: string, printed: bool, line: Line, ghost rest: seq<Line>) returns (r: string)
    ensures r + Render(rest) == out + Render(When(printed, line) + rest)
  {
    r := out;
    if printed {
      RenderOne(line, rest);
      hide Render, Print;
      r := r + Print(line);
      Assoc(out, Print(line), Render(rest));
    } else {
      assert When(printed, line) + rest == rest;
    }
  }

  method EmitPlan(ft: FloatText, out: string, p: Plan, ghost rest: seq<Line>) returns (r: string)
    ensures r + Render(rest) == out + Render(PlanLines(YamlStr, ft, p, rest))
  {
    hide Render, When, Field, YamlStr;
    ghost var l3 := When(p.hasCostUsd, Field(4, "cost_usd", ft.format(p.costUsd))) + rest;
    var title := YamlString(p.title);
    var currency := YamlString(p.currency);
    ghost var l2 := When(p.title != "", Field(4, "label", title)) + l3;
    ghost var l1 := When(p.currency != "", Field(4, "currency", currency)) + l2;
    r := Emit(out, p.cost != ZERO, Field(4, "cost", ft.format(p.cost)), l1);
    r := Emit(r, p.currency != "", Field(4, "currency", currency), l2);
    r := Emit(r, p.title != "", Field(4, "label", title), l3);
    r := Emit(r, p.hasCostUsd, Field(4, "cost_usd", ft.format(p.costUsd)), rest);
  }

  method EmitLine(out: string, line: Line, ghost rest: seq<Line>) returns (r: string)
    ensures r + Render(rest) == out + Render([line] + rest)
  {
    RenderOne(line, rest);
    hide Render, Print;
    r := out + Print(line);
    Assoc(out, Print(line), Render(rest));
  }

  method EmitProvider(ft: FloatText, out: string, p: Provider, ghost rest: seq<Line>) returns (r: string)
    ensures r + Render(rest) == out + Render([DashLine(YamlStr, p)] + ProviderTail(YamlStr, ft, p, rest))
  {
    hide Render, When, Field, YamlStr, PlanLines;
    var id := YamlString(p.id);
    var title := YamlString(p.title);
    var keyEnv := YamlString(p.keyEnv);
    var probe := if p.probe then "true" else "false";
    ghost var l4 := PlanSection(YamlStr, ft, p.plan, rest);
    ghost var l3 := When(p.hasProbe, Field(2, "probe", probe)) + l4;
    ghost var l2 := When(p.keyEnv != "", Field(2, "key_env", keyEnv)) + l3;
    ghost var l1 := When(p.title != "", Field(2, "label", title)) + l2;
    ghost var l0 := ProviderTail(YamlStr, ft, p, rest);
    r := EmitLine(out, DashLine(YamlStr, p), l0);
    r := Emit(r, !p.enabled, Field(2, "enabled", "false"), l1);
    r := Emit(r, p.title != "", Field(2, "label", title), l2);
    r := Emit(r, p.keyEnv != "", Field(2, "key_env", keyEnv), l3);
    r := Emit(r, p.hasProbe, Field(2, "probe", probe), l4);
    if p.plan.Some? {
      r := EmitLine(r, Line(2, "plan:"), PlanLines(YamlStr, ft, p.plan.value, rest));
      r := EmitPlan(ft, r, p.plan.value, rest);
    }
  }

  method EmitAlerts(ft: FloatText, out: string, alerts: map<string, Number>, ghost rest: seq<Line>)
    returns (r: string)
    ensures r + Render(rest) == out + Render(AlertSection(ft, alerts, rest))
  {
    hide Render, Field;
    r := out;
    if alerts != map[] {
      r := EmitLine(r, Line(0, "alerts:"), AlertLines(ft, alerts, ALERT_KEYS, rest));
      for i := 0 to |ALERT_KEYS|
        invariant r + Render(AlertLines(ft, alerts, ALERT_KEYS[i..], rest))
                  == out + Render(AlertSection(ft, alerts, rest))
      {
        hide ALERT_KEYS, AlertSection;
        assert ALERT_KEYS[i..][1..] == ALERT_KEYS[i + 1..];
        var key := ALERT_KEYS[i];
        if key in alerts {
          r := EmitLine(r, Field(2, key, ft.format(alerts[key])), AlertLines(ft, alerts, ALERT_KEYS[i + 1..], rest));
        }
      }
    }
  }

  method EmitOrder(out: string, order: seq<string>, ghost rest: seq<Line>) returns (r: string)
    ensures r + Render(rest) == out + Render(OrderSection(YamlStr, order, rest))
  {
    hide Render, YamlStr;
    r := out;
    if order != [] {
      r := EmitLine(r, Line(0, "provider_order:"), OrderLines(YamlStr, order, rest));
      for i := 0 to |order|
        invariant r + Render(OrderLines(YamlStr, order[i..], rest)) == out + Render(OrderSection(YamlStr, order, rest))
      {
        assert order[i..][1..] == order[i + 1..];
        var id := YamlString(order[i]);
        r := EmitLine(r, Line(2, "- " + id), OrderLines(YamlStr, order[i + 1..], rest));
      }
    }
  }

  lemma RenderNone()
    ensures Render([]) == ""
    ensures forall out: string :: out + "" == out
  {
  }

  method EmitProviders(ft: FloatText, out: string, providers: seq<Provider>) returns (r: string)
    ensures r == out + Render(ProviderSection(YamlStr, ft, providers))
  {
    hide Render, DashLine, ProviderTail;
    r := out;
    RenderNone();
    if providers != [] {
      r := EmitLine(r, Line(0, "providers:"), ProviderLines(YamlStr, ft, providers));
      for i := 0 to |providers|
        invariant r + Render(ProviderLines(YamlStr, ft, providers[i..]))
                  == out + Render(ProviderSection(YamlStr, ft, providers))
      {
        assert providers[i..][1..] == providers[i + 1..];
        r := EmitProvider(ft, r, providers[i], ProviderLines(YamlStr, ft, providers[i + 1..]));
      }
    }
  }

  method SerializeYaml(ft: FloatText, fc: FileConfig) returns (out: string)
    ensures out == Serialize(ft, fc)
  {
    hide Render, When, Field, YamlStr, AlertSection, OrderSection, ProviderSection;
    ghost var l3 := Sections(YamlStr, ft, fc);
    ghost var providers := ProviderSection(YamlStr, ft, fc.providers);
    var listen := YamlString(fc.listen);
    var tz := YamlString(fc.tz);
    ghost var l2 := When(fc.tz != "", Field(0, "tz", tz)) + l3;
    ghost var l1 := When(fc.listen != "", Field(0, "listen", listen)) + l2;
    out := Emit("", fc.intervalSec > 0, Field(0, "interval_sec", Itoa(Positive(fc.intervalSec))), l1);
    out := Emit(out, fc.listen != "", Field(0, "listen", listen), l2);
    out := Emit(out, fc.tz != "", Field(0, "tz", tz), l3);
    out := EmitAlerts(ft, out, fc.alerts, OrderSection(YamlStr, fc.providerOrder, providers));
    out := EmitOrder(out, fc.providerOrder, providers);
    out := EmitProviders(ft, out, fc.providers);
  }
}
