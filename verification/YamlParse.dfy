/** The settings file's parser: nested blocks read line by line, each loop against a function of the lines left. */
module YamlParse {
  import opened Bytes
  import opened YamlText
  import opened YamlScalar

  type int64 = n: int | -INT64_END <= n < INT64_END

  datatype Plan = Plan(cost: Number, currency: string, costUsd: Number, hasCostUsd: bool, title: string)

  datatype Provider = Provider(id: string, enabled: bool, title: string, keyEnv: string,
                               probe: bool, hasProbe: bool, plan: Option<Plan>)

  datatype FileConfig = FileConfig(intervalSec: int64, listen: string, deviceToken: string, tz: string,
                                   alerts: map<string, Number>, providers: seq<Provider>,
                                   providerOrder: seq<string>)

  const EMPTY_PLAN := Plan(ZERO, "", ZERO, false, "")
  const EMPTY_PROVIDER := Provider("", true, "", "", false, false, None)
  const EMPTY_CONFIG := FileConfig(0, "", "", "", map[], [], [])

  const ALERT_KEYS: seq<string> := ["openrouter_low_usd", "quota_warn_5h_pct", "quota_warn_weekly_pct"]
  const LEGACY_ALERT_KEY := "quota_warn_pct"

  // --- what each block means, as a function of the lines left; None is any of the parser's errors ---

  function PlanField(ft: FloatText, p: Plan, key: string, value: string): Option<Plan>
  {
    if key == "cost" then
      if ft.parse(value).None? then None else Some(p.(cost := ft.parse(value).value))
    else if key == "currency" then
      if value == "" then None else Some(p.(currency := Unquote(value)))
    else if key == "cost_usd" then
      if ft.parse(value).None? then None else Some(p.(costUsd := ft.parse(value).value, hasCostUsd := true))
    else if key == "label" then
      if value == "" then None else Some(p.(title := Unquote(value)))
    else None
  }

  function PlanFields(ft: FloatText, lines: seq<Line>, indent: nat, p: Plan): (r: Option<(Plan, seq<Line>)>)
    ensures r.Some? ==> |r.value.1| <= |lines|
  {
    if lines == [] || lines[0].indent != indent then Some((p, lines))
    else
      var kv := SplitKv(lines[0].content);
      if kv.None? then None
      else
        var next := PlanField(ft, p, kv.value.0, kv.value.1);
        if next.None? then None else PlanFields(ft, lines[1..], indent, next.value)
  }

  function PlanBlock(ft: FloatText, lines: seq<Line>, indent: nat): (r: Option<(Plan, seq<Line>)>)
    ensures r.Some? ==> |r.value.1| <= |lines|
  {
    if lines == [] || lines[0].indent != indent then None else PlanFields(ft, lines, indent, EMPTY_PLAN)
  }

  predicate LooksLikeKey(s: string)
  {
    HasPrefix(s, "sk-") || HasPrefix(s, "gsk_")
  }

  function ProviderField(p: Provider, key: string, value: string): Option<Provider>
  {
    if key == "id" then Some(p.(id := Unquote(value)))
    else if key == "enabled" then
      if ParseBool(value).None? then None else Some(p.(enabled := ParseBool(value).value))
    else if key == "label" then Some(p.(title := Unquote(value)))
    else if key == "key_env" then
      if LooksLikeKey(Unquote(value)) then None else Some(p.(keyEnv := Unquote(value)))
    else if key == "probe" then
      if ParseBool(value).None? then None else Some(p.(probe := ParseBool(value).value, hasProbe := true))
    else None
  }

  function ProviderFields(ft: FloatText, lines: seq<Line>, indent: nat, p: Provider)
    : (r: Option<(Provider, seq<Line>)>)
    ensures r.Some? ==> |r.value.1| <= |lines|
    decreases |lines|
  {
    if lines == [] || lines[0].indent != indent then Some((p, lines))
    else
      var kv := SplitKv(lines[0].content);
      if kv.None? then None
      else if kv.value == ("plan", "") then
        var block := PlanBlock(ft, lines[1..], indent + 2);
        if block.None? then None
        else ProviderFields(ft, block.value.1, indent, p.(plan := Some(block.value.0)))
      else
        var next := ProviderField(p, kv.value.0, kv.value.1);
        if next.None? then None else ProviderFields(ft, lines[1..], indent, next.value)
  }

  /** The field on the dash line itself; text there that holds no colon is ignored. */
  function DashField(content: string): Option<Provider>
    requires |content| >= 2
  {
    var kv := SplitKv(content[2..]);
    if kv.None? then Some(EMPTY_PROVIDER) else ProviderField(EMPTY_PROVIDER, kv.value.0, kv.value.1)
  }

  predicate IsItem(line: Line, indent: nat)
  {
    line.indent == indent && HasPrefix(line.content, "- ")
  }

  function ProviderItems(ft: FloatText, lines: seq<Line>, indent: nat, acc: seq<Provider>)
    : (r: Option<(seq<Provider>, seq<Line>)>)
    ensures r.Some? ==> |r.value.1| <= |lines|
    decreases |lines|
  {
    if lines == [] || !IsItem(lines[0], indent) then Some((acc, lines))
    else
      var first := DashField(lines[0].content);
      if first.None? then None
      else
        var item := ProviderFields(ft, lines[1..], indent + 2, first.value);
        if item.None? then None
        else ProviderItems(ft, item.value.1, indent, acc + [item.value.0])
  }

  /** The provider list takes its indentation from its first line. */
  function ProviderBlock(ft: FloatText, lines: seq<Line>): (r: Option<(seq<Provider>, seq<Line>)>)
    ensures r.Some? ==> |r.value.1| <= |lines|
  {
    if lines == [] then Some(([], lines)) else ProviderItems(ft, lines, lines[0].indent, [])
  }

  function StringItems(lines: seq<Line>, indent: nat, acc: seq<string>): (r: (seq<string>, seq<Line>))
    ensures |r.1| <= |lines|
  {
    if lines == [] || !IsItem(lines[0], indent) then (acc, lines)
    else StringItems(lines[1..], indent, acc + [Unquote(TrimSpace(lines[0].content[2..]))])
  }

  function StringBlock(lines: seq<Line>): (r: Option<(seq<string>, seq<Line>)>)
    ensures r.Some? ==> |r.value.1| <= |lines|
  {
    if lines == [] then Some(([], lines))
    else if lines[0].indent != 2 then None
    else Some(StringItems(lines, 2, []))
  }

  predicate ValidAlertKey(key: string)
  {
    key in ALERT_KEYS || key == LEGACY_ALERT_KEY
  }

  function AlertItems(ft: FloatText, lines: seq<Line>, m: map<string, Number>)
    : (r: Option<(map<string, Number>, seq<Line>)>)
    ensures r.Some? ==> |r.value.1| <= |lines|
  {
    if lines == [] || lines[0].indent != 2 then Some((m, lines))
    else
      var kv := SplitKv(lines[0].content);
      if kv.None? || kv.value.1 == "" || !ValidAlertKey(kv.value.0) || ft.parse(kv.value.1).None? then None
      else AlertItems(ft, lines[1..], m[kv.value.0 := ft.parse(kv.value.1).value])
  }

  function AlertBlock(ft: FloatText, lines: seq<Line>): (r: Option<(map<string, Number>, seq<Line>)>)
    ensures r.Some? ==> |r.value.1| <= |lines|
  {
    if lines == [] || lines[0].indent != 2 then None else AlertItems(ft, lines, map[])
  }

  function TopScalar(fc: FileConfig, key: string, value: string): Option<FileConfig>
  {
    if value == "" then None
    else if key == "interval_sec" then
      if Atoi(value).None? then None else Some(fc.(intervalSec := Atoi(value).value))
    else if key == "listen" then Some(fc.(listen := Unquote(value)))
    else if key == "device_token" then Some(fc.(deviceToken := Unquote(value)))
    else if key == "tz" then Some(fc.(tz := Unquote(value)))
    else None
  }

  function TopBlock(ft: FloatText, lines: seq<Line>, fc: FileConfig, key: string)
    : (r: Option<(FileConfig, seq<Line>)>)
    ensures r.Some? ==> |r.value.1| <= |lines|
  {
    if key == "alerts" then
      var b := AlertBlock(ft, lines);
      if b.None? then None else Some((fc.(alerts := fc.alerts + b.value.0), b.value.1))
    else if key == "providers" then
      var b := ProviderBlock(ft, lines);
      if b.None? then None else Some((fc.(providers := b.value.0), b.value.1))
    else
      var b := StringBlock(lines);
      if b.None? then None else Some((fc.(providerOrder := b.value.0), b.value.1))
  }

  predicate IsBlockKey(key: string)
  {
    key == "alerts" || key == "providers" || key == "provider_order"
  }

  function TopLevel(ft: FloatText, lines: seq<Line>, fc: FileConfig): Option<FileConfig>
    decreases |lines|
  {
    if lines == [] then Some(fc)
    else if lines[0].indent != 0 || SplitKv(lines[0].content).None? then None
    else
      var kv := SplitKv(lines[0].content).value;
      if IsBlockKey(kv.0) then
        if kv.1 != "" then None
        else
          var b := TopBlock(ft, lines[1..], fc, kv.0);
          if b.None? then None else TopLevel(ft, b.value.1, b.value.0)
      else
        var next := TopScalar(fc, kv.0, kv.1);
        if next.None? then None else TopLevel(ft, lines[1..], next.value)
  }

  predicate ValidIds(providers: seq<Provider>)
  {
    && (forall i :: 0 <= i < |providers| ==> providers[i].id != "")
    && (forall i, j :: 0 <= i < j < |providers| ==> providers[i].id != providers[j].id)
  }

  function Parse(ft: FloatText, text: string): Option<FileConfig>
  {
    if Lex(text).None? then None
    else
      var fc := TopLevel(ft, Lex(text).value, EMPTY_CONFIG);
      if fc.None? || !ValidIds(fc.value.providers) then None else fc
  }

  // --- the loops ---

  /** A loop's result, a value and the index past its block, says what the function of the lines left says. */
  predicate Agrees<T(==)>(r: Option<(T, nat)>, spec: Option<(T, seq<Line>)>, lines: seq<Line>)
  {
    && r.None? == spec.None?
    && (r.Some? ==> r.value.1 <= |lines| && spec.value == (r.value.0, lines[r.value.1..]))
  }

  lemma NoneAgrees<T>(lines: seq<Line>)
    ensures Agrees<T>(None, None, lines)
  {
  }

  lemma BlockAgrees<T>(x: T, pos: nat, lines: seq<Line>)
    requires pos <= |lines|
    ensures Agrees(Some((x, pos)), Some((x, lines[pos..])), lines)
  {
  }

  /** What each block function is at a position: an error, nothing, or its loop. */
  lemma BlocksAt(ft: FloatText, lines: seq<Line>, start: nat, indent: nat)
    requires start <= |lines|
    ensures start == |lines| || lines[start].indent != indent ==> PlanBlock(ft, lines[start..], indent) == None
    ensures start < |lines| && lines[start].indent == indent ==>
              PlanBlock(ft, lines[start..], indent) == PlanFields(ft, lines[start..], indent, EMPTY_PLAN)
    ensures start == |lines| || lines[start].indent != 2 ==> AlertBlock(ft, lines[start..]) == None
    ensures start < |lines| && lines[start].indent == 2 ==>
              AlertBlock(ft, lines[start..]) == AlertItems(ft, lines[start..], map[])
    ensures start == |lines| ==> ProviderBlock(ft, lines[start..]) == Some(([], lines[start..]))
    ensures start < |lines| ==>
              ProviderBlock(ft, lines[start..]) == ProviderItems(ft, lines[start..], lines[start].indent, [])
  {
    hide PlanFields, AlertItems, ProviderItems;
    if start < |lines| {
      assert lines[start..][0] == lines[start];
    }
  }

  method ParsePlanBlock(ft: FloatText, lines: seq<Line>, start: nat, indent: nat) returns (r: Option<(Plan, nat)>)
    requires start <= |lines|
    ensures Agrees(r, PlanBlock(ft, lines[start..], indent), lines)
  {
    hide PlanField, SplitKv, PlanBlock;
    BlocksAt(ft, lines, start, indent);
    if start >= |lines| || lines[start].indent != indent {
      return None;
    }
    var pos, p := start, EMPTY_PLAN;
    while pos < |lines| && lines[pos].indent == indent
      invariant start <= pos <= |lines|
      invariant PlanFields(ft, lines[pos..], indent, p) == PlanFields(ft, lines[start..], indent, EMPTY_PLAN)
    {
      assert lines[pos..][1..] == lines[pos + 1..];
      var kv := SplitKv(lines[pos].content);
      if kv.None? {
        return None;
      }
      var next := PlanField(ft, p, kv.value.0, kv.value.1);
      if next.None? {
        return None;
      }
      pos, p := pos + 1, next.value;
    }
    return Some((p, pos));
  }

  method ParseProviderFields(ft: FloatText, lines: seq<Line>, start: nat, indent: nat, first: Provider)
    returns (r: Option<(Provider, nat)>)
    requires start <= |lines|
    ensures Agrees(r, ProviderFields(ft, lines[start..], indent, first), lines)
    ensures r.Some? ==> start <= r.value.1
  {
    hide ProviderField, PlanBlock, SplitKv;
    var pos, p := start, first;
    while pos < |lines| && lines[pos].indent == indent
      invariant start <= pos <= |lines|
      invariant ProviderFields(ft, lines[pos..], indent, p) == ProviderFields(ft, lines[start..], indent, first)
    {
      assert lines[pos..][1..] == lines[pos + 1..];
      var kv := SplitKv(lines[pos].content);
      if kv.None? {
        return None;
      }
      if kv.value == ("plan", "") {
        var block := ParsePlanBlock(ft, lines, pos + 1, indent + 2);
        if block.None? {
          return None;
        }
        assert |lines[block.value.1..]| <= |lines[pos + 1..]|;
        pos, p := block.value.1, p.(plan := Some(block.value.0));
      } else {
        var next := ProviderField(p, kv.value.0, kv.value.1);
        if next.None? {
          return None;
        }
        pos, p := pos + 1, next.value;
      }
    }
    return Some((p, pos));
  }

  lemma ItemLength(line: Line, indent: nat)
    requires IsItem(line, indent)
    ensures |line.content| >= 2
  {
  }

  lemma ItemsAt(ft: FloatText, lines: seq<Line>, pos: nat, indent: nat, acc: seq<Provider>)
    requires pos <= |lines|
    ensures pos == |lines| || !IsItem(lines[pos], indent) ==>
              ProviderItems(ft, lines[pos..], indent, acc) == Some((acc, lines[pos..]))
    ensures pos < |lines| && IsItem(lines[pos], indent) ==>
              |lines[pos].content| >= 2
              && var first := DashField(lines[pos].content);
                 ProviderItems(ft, lines[pos..], indent, acc)
                 == if first.None? then None
                    else
                      var item := ProviderFields(ft, lines[pos + 1..], indent + 2, first.value);
                      if item.None? then None else ProviderItems(ft, item.value.1, indent, acc + [item.value.0])
  {
    hide DashField, ProviderFields;
    if pos < |lines| {
      assert lines[pos..][0] == lines[pos] && lines[pos..][1..] == lines[pos + 1..];
      if IsItem(lines[pos], indent) {
        ItemLength(lines[pos], indent);
      }
    }
  }

  /** One item of the list, from its dash on. */
  lemma ItemStep(ft: FloatText, lines: seq<Line>, pos: nat, indent: nat, acc: seq<Provider>,
                 item: Option<(Provider, nat)>)
    requires pos < |lines| && IsItem(lines[pos], indent) && |lines[pos].content| >= 2
    requires DashField(lines[pos].content).Some?
    requires Agrees(item, ProviderFields(ft, lines[pos + 1..], indent + 2, DashField(lines[pos].content).value), lines)
    ensures ProviderItems(ft, lines[pos..], indent, acc)
            == if item.None? then None else ProviderItems(ft, lines[item.value.1..], indent, acc + [item.value.0])
    ensures item.Some? ==> item.value.1 <= |lines|
  {
    ItemsAt(ft, lines, pos, indent, acc);
    hide DashField, IsItem, ProviderFields, ProviderItems;
  }

  method ParseProviderList(ft: FloatText, lines: seq<Line>, start: nat) returns (r: Option<(seq<Provider>, nat)>)
    requires start <= |lines|
    ensures Agrees(r, ProviderBlock(ft, lines[start..]), lines)
  {
    hide DashField, IsItem, ProviderFields, ProviderBlock, ProviderItems, Agrees;
    ghost var whole := ProviderBlock(ft, lines[start..]);
    BlocksAt(ft, lines, start, 0);
    NoneAgrees<seq<Provider>>(lines);
    var providers: seq<Provider> := [];
    if start >= |lines| {
      BlockAgrees(providers, start, lines);
      return Some((providers, start));
    }
    var pos, indent := start, lines[start].indent;
    while pos < |lines| && IsItem(lines[pos], indent)
      invariant start <= pos <= |lines|
      invariant ProviderItems(ft, lines[pos..], indent, providers) == whole
    {
      ItemsAt(ft, lines, pos, indent, providers);
      var first := DashField(lines[pos].content);
      if first.None? {
        return None;
      }
      var item := ParseProviderFields(ft, lines, pos + 1, indent + 2, first.value);
      ItemStep(ft, lines, pos, indent, providers, item);
      if item.None? {
        return None;
      }
      pos, providers := item.value.1, providers + [item.value.0];
    }
    ItemsAt(ft, lines, pos, indent, providers);
    BlockAgrees(providers, pos, lines);
    return Some((providers, pos));
  }

  lemma StringBlockAt(lines: seq<Line>, start: nat)
    requires start <= |lines|
    ensures start == |lines| ==> StringBlock(lines[start..]) == Some(([], lines[start..]))
    ensures start < |lines| && lines[start].indent != 2 ==> StringBlock(lines[start..]) == None
    ensures start < |lines| && lines[start].indent == 2 ==>
              StringBlock(lines[start..]) == Some(StringItems(lines[start..], 2, []))
  {
    hide StringItems;
    if start < |lines| {
      assert lines[start..][0] == lines[start];
    }
  }

  method ParseStringList(lines: seq<Line>, start: nat) returns (r: Option<(seq<string>, nat)>)
    requires start <= |lines|
    ensures Agrees(r, StringBlock(lines[start..]), lines)
  {
    hide Unquote, TrimSpace, IsItem, StringBlock;
    StringBlockAt(lines, start);
    var list: seq<string> := [];
    if start >= |lines| {
      return Some((list, start));
    }
    if lines[start].indent != 2 {
      return None;
    }
    var pos := start;
    while pos < |lines| && IsItem(lines[pos], 2)
      invariant start <= pos <= |lines|
      invariant StringItems(lines[pos..], 2, list) == StringItems(lines[start..], 2, [])
    {
      assert lines[pos..][1..] == lines[pos + 1..];
      ItemLength(lines[pos], 2);
      pos, list := pos + 1, list + [Unquote(TrimSpace(lines[pos].content[2..]))];
    }
    return Some((list, pos));
  }

  method ParseScalarMap(ft: FloatText, lines: seq<Line>, start: nat) returns (r: Option<(map<string, Number>, nat)>)
    requires start <= |lines|
    ensures Agrees(r, AlertBlock(ft, lines[start..]), lines)
  {
    hide SplitKv, ValidAlertKey, AlertBlock;
    BlocksAt(ft, lines, start, 2);
    if start >= |lines| || lines[start].indent != 2 {
      return None;
    }
    var m: map<string, Number> := map[];
    var pos := start;
    while pos < |lines| && lines[pos].indent == 2
      invariant start <= pos <= |lines|
      invariant AlertItems(ft, lines[pos..], m) == AlertItems(ft, lines[start..], map[])
    {
      assert lines[pos..][1..] == lines[pos + 1..];
      var kv := SplitKv(lines[pos].content);
      if kv.None? || kv.value.1 == "" || !ValidAlertKey(kv.value.0) || ft.parse(kv.value.1).None? {
        return None;
      }
      pos, m := pos + 1, m[kv.value.0 := ft.parse(kv.value.1).value];
    }
    return Some((m, pos));
  }

  method ParseBlock(ft: FloatText, lines: seq<Line>, start: nat, fc: FileConfig, key: string)
    returns (r: Option<(FileConfig, nat)>)
    requires start <= |lines|
    ensures Agrees(r, TopBlock(ft, lines[start..], fc, key), lines)
  {
    hide AlertBlock, ProviderBlock, StringBlock;
    if key == "alerts" {
      var b := ParseScalarMap(ft, lines, start);
      return if b.None? then None else Some((fc.(alerts := fc.alerts + b.value.0), b.value.1));
    } else if key == "providers" {
      var b := ParseProviderList(ft, lines, start);
      return if b.None? then None else Some((fc.(providers := b.value.0), b.value.1));
    } else {
      var b := ParseStringList(lines, start);
      return if b.None? then None else Some((fc.(providerOrder := b.value.0), b.value.1));
    }
  }

  method CheckIds(providers: seq<Provider>) returns (ok: bool)
    ensures ok == ValidIds(providers)
  {
    var seen: set<string> := {};
    for i := 0 to |providers|
      invariant ValidIds(providers[..i])
      invariant forall id :: id in seen <==> exists j :: 0 <= j < i && providers[j].id == id
    {
      if providers[i].id == "" || providers[i].id in seen {
        return false;
      }
      seen := seen + {providers[i].id};
    }
    assert providers[..|providers|] == providers;
    return true;
  }

  method ParseYaml(ft: FloatText, text: string) returns (r: Option<FileConfig>)
    ensures r == Parse(ft, text)
  {
    hide TopScalar, TopBlock, IsBlockKey, SplitKv, ValidIds, Lex;
    var lexed := LexYaml(text);
    if lexed.None? {
      return None;
    }
    var lines := lexed.value;
    var fc, i := EMPTY_CONFIG, 0;
    while i < |lines|
      invariant 0 <= i <= |lines|
      invariant TopLevel(ft, lines[i..], fc) == TopLevel(ft, lines, EMPTY_CONFIG)
    {
      assert lines[i..][1..] == lines[i + 1..];
      if lines[i].indent != 0 || SplitKv(lines[i].content).None? {
        return None;
      }
      var kv := SplitKv(lines[i].content).value;
      if IsBlockKey(kv.0) {
        if kv.1 != "" {
          return None;
        }
        var b := ParseBlock(ft, lines, i + 1, fc, kv.0);
        if b.None? {
          return None;
        }
        assert |lines[b.value.1..]| <= |lines[i + 1..]|;
        fc, i := b.value.0, b.value.1;
      } else {
        var next := TopScalar(fc, kv.0, kv.1);
        if next.None? {
          return None;
        }
        fc, i := next.value, i + 1;
      }
    }
    var ok := CheckIds(fc.providers);
    return if ok then Some(fc) else None;
  }
}
