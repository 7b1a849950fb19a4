/** Built-in provider defaults, what is saved of a payload, and the settings in effect after a restart. */
module ProviderDefaults {
  import opened Bytes
  import opened YamlScalar
  import opened YamlParse
  import opened YamlConfig
  import opened YamlRestart

  // --- the table; prices are float64 bits of 1100, 200, 110, 20 and 10 ---

  const PRICE_1100 := Number(0x4091_3000_0000_0000)
  const PRICE_200 := Number(0x4069_0000_0000_0000)
  const PRICE_110 := Number(0x405b_8000_0000_0000)
  const PRICE_20 := Number(0x4034_0000_0000_0000)
  const PRICE_10 := Number(0x4024_0000_0000_0000)

  const GROQ := "groq"

  const DEFAULTS: seq<Provider> := [
    Provider("claude", true, "Claude", "", false, false, Some(Plan(PRICE_1100, "BRL", PRICE_200, true, "Max 20x"))),
    Provider("codex", true, "ChatGPT", "", false, false, Some(Plan(PRICE_110, "BRL", PRICE_20, true, "Plus"))),
    Provider("openrouter:main", true, "OpenRouter main", "OPENROUTER_API_KEY", false, false, None),
    Provider("openrouter:fallback", true, "OpenRouter fallback", "OPENROUTER_API_KEY_FALLBACK", false, false, None),
    Provider(GROQ, true, "Groq", "GROQ_API_KEY", false, false, None),
    Provider("opencode:go", true, "OpenCode Go", "OPENCODE_API_KEY", false, false,
             Some(Plan(PRICE_10, "USD", PRICE_10, true, "Go")))
  ]

  const DEFAULT_ORDER: seq<string> :=
    ["claude", "codex", "openrouter:main", "openrouter:fallback", GROQ, "opencode:go"]

  // --- merging ---

  function MergeWithDefault(p: Provider, d: Provider): Provider
  {
    Provider(d.id, p.enabled, if p.title != "" then p.title else d.title,
             if p.keyEnv != "" then p.keyEnv else d.keyEnv, if p.hasProbe then p.probe else d.probe,
             p.hasProbe || d.hasProbe, if p.plan.Some? then p.plan else d.plan)
  }

  predicate PlanEqual(a: Option<Plan>, b: Option<Plan>)
  {
    if a.None? || b.None? then a.None? && b.None?
    else
      && a.value.cost == b.value.cost && a.value.currency == b.value.currency
      && a.value.costUsd == b.value.costUsd && a.value.title == b.value.title
  }

  predicate ProviderEqual(a: Provider, b: Provider)
  {
    && a.id == b.id && a.enabled == b.enabled && a.title == b.title && a.keyEnv == b.keyEnv
    && a.probe == b.probe && PlanEqual(a.plan, b.plan)
  }

  /** The first default with that id. */
  function DefaultIn(defaults: seq<Provider>, id: string): Option<Provider>
  {
    if defaults == [] then None
    else if defaults[0].id == id then Some(defaults[0])
    else DefaultIn(defaults[1..], id)
  }

  /** What is saved of one payload provider: nothing when it matches its default, else the merged record. */
  function Saved(p: Provider): seq<Provider>
  {
    var d := DefaultIn(DEFAULTS, p.id);
    if d.None? then [p]
    else if ProviderEqual(MergeWithDefault(p, d.value), d.value) then []
    else [MergeWithDefault(p, d.value)]
  }

  function Overrides(providers: seq<Provider>): seq<Provider>
  {
    if providers == [] then [] else Saved(providers[0]) + Overrides(providers[1..])
  }

  /** The payload's providers in display order; ids outside the table are dropped. */
  function InOrder(m: map<string, Provider>, order: seq<string>): seq<Provider>
  {
    if order == [] then []
    else (if order[0] in m then [m[order[0]]] else []) + InOrder(m, order[1..])
  }

  /** Loading a file's providers into the configuration, the last of an id winning. */
  function Applied(m: map<string, Provider>, providers: seq<Provider>): map<string, Provider>
    decreases |providers|
  {
    if providers == [] then m else Applied(m[providers[0].id := providers[0]], providers[1..])
  }

  /** The settings of one provider in effect. Only Groq can be probed. */
  datatype Effective = Effective(settings: Provider, canProbe: bool)

  function EffectiveOne(configs: map<string, Provider>, d: Provider): Effective
  {
    Effective(if d.id in configs then MergeWithDefault(configs[d.id], d) else d, d.id == GROQ)
  }

  function EffectiveOf(configs: map<string, Provider>, defaults: seq<Provider>): (r: seq<Effective>)
    ensures |r| == |defaults|
    ensures forall i :: 0 <= i < |r| ==> r[i] == EffectiveOne(configs, defaults[i])
  {
    if defaults == [] then [] else [EffectiveOne(configs, defaults[0])] + EffectiveOf(configs, defaults[1..])
  }

  // --- what a record means, field by field ---

  /** The values settled for one provider: whatever a record gives, and the default's where it gives nothing.
      Switching a provider on or off is always given; an empty text, an unset probe and a missing plan are not. */
  predicate Settled(s: Provider, given: Option<Provider>, d: Provider)
  {
    s.id == d.id
    && match given
       case None =>
         s.enabled == d.enabled && s.title == d.title && s.keyEnv == d.keyEnv && s.probe == d.probe && s.plan == d.plan
       case Some(p) =>
         && s.enabled == p.enabled
         && (p.title != "" ==> s.title == p.title) && (p.title == "" ==> s.title == d.title)
         && (p.keyEnv != "" ==> s.keyEnv == p.keyEnv) && (p.keyEnv == "" ==> s.keyEnv == d.keyEnv)
         && (p.hasProbe ==> s.probe == p.probe) && (!p.hasProbe ==> s.probe == d.probe)
         && (p.plan.Some? ==> s.plan == p.plan) && (p.plan.None? ==> s.plan == d.plan)
  }

  /** Every field the record gives has its default's value. */
  predicate AddsNothing(p: Provider, d: Provider)
  {
    && p.enabled == d.enabled
    && (p.title != "" ==> p.title == d.title) && (p.keyEnv != "" ==> p.keyEnv == d.keyEnv)
    && (p.hasProbe ==> p.probe == d.probe)
    && (p.plan.Some? ==>
          && d.plan.Some?
          && p.plan.value.(hasCostUsd := d.plan.value.hasCostUsd) == d.plan.value)
  }

  function Lookup(configs: map<string, Provider>, id: string): Option<Provider>
  {
    if id in configs then Some(configs[id]) else None
  }

  lemma {:induction false} FoundId(defaults: seq<Provider>, id: string)
    ensures DefaultIn(defaults, id).Some? ==> DefaultIn(defaults, id).value.id == id
  {
    if defaults != [] {
      FoundId(defaults[1..], id);
    }
  }

  /** Of one provider of a payload, nothing is saved exactly when it adds nothing to its default, a record of an id
      outside the table is saved as it is, and of any other all that is settled for it. */
  lemma SavedMeaning(p: Provider)
    ensures var d := DefaultIn(DEFAULTS, p.id);
            && (d.None? ==> Saved(p) == [p])
            && (d.Some? ==>
                  && (Saved(p) == [] <==> AddsNothing(p, d.value))
                  && (Saved(p) != [] ==>
                        && |Saved(p)| == 1 && Settled(Saved(p)[0], Some(p), d.value)
                        && Saved(p)[0].hasProbe == (p.hasProbe || d.value.hasProbe)))
  {
    hide DEFAULTS;
    FoundId(DEFAULTS, p.id);
  }

  /** The settings in effect for one provider: only Groq can be probed. */
  lemma InEffect(configs: map<string, Provider>, d: Provider)
    ensures var e, given := EffectiveOne(configs, d), Lookup(configs, d.id);
            && Settled(e.settings, given, d)
            && e.settings.hasProbe == ((given.Some? && given.value.hasProbe) || d.hasProbe)
            && (e.canProbe <==> d.id == "groq")
  {
  }

  // --- the loops ---

  method DefaultProviderById(id: string) returns (r: Option<Provider>)
    ensures r == DefaultIn(DEFAULTS, id)
  {
    hide DEFAULTS;
    for i := 0 to |DEFAULTS|
      invariant DefaultIn(DEFAULTS[i..], id) == DefaultIn(DEFAULTS, id)
    {
      assert DEFAULTS[i..][1..] == DEFAULTS[i + 1..];
      if DEFAULTS[i].id == id {
        return Some(DEFAULTS[i]);
      }
    }
    return None;
  }

  method OverridesOnly(providers: seq<Provider>) returns (out: seq<Provider>)
    ensures out == Overrides(providers)
  {
    hide DEFAULTS, DefaultIn, ProviderEqual, MergeWithDefault;
    out := [];
    for i := 0 to |providers|
      invariant out + Overrides(providers[i..]) == Overrides(providers)
    {
      assert providers[i..][1..] == providers[i + 1..];
      ghost var was := out;
      assert was + (Saved(providers[i]) + Overrides(providers[i + 1..]))
             == was + Saved(providers[i]) + Overrides(providers[i + 1..]);
      var p := providers[i];
      var d := DefaultProviderById(p.id);
      if d.None? {
        out := out + [p];
      } else {
        var eff := MergeWithDefault(p, d.value);
        if !ProviderEqual(eff, d.value) {
          out := out + [eff];
        }
      }
      assert out == was + Saved(p);
    }
  }

  method BuildYamlProviders(m: map<string, Provider>) returns (out: seq<Provider>)
    ensures out == InOrder(m, DEFAULT_ORDER)
  {
    hide DEFAULT_ORDER;
    out := [];
    for i := 0 to |DEFAULT_ORDER|
      invariant out + InOrder(m, DEFAULT_ORDER[i..]) == InOrder(m, DEFAULT_ORDER)
    {
      assert DEFAULT_ORDER[i..][1..] == DEFAULT_ORDER[i + 1..];
      if DEFAULT_ORDER[i] in m {
        out := out + [m[DEFAULT_ORDER[i]]];
      }
    }
  }

  method ApplyProviders(configs: map<string, Provider>, providers: seq<Provider>) returns (m: map<string, Provider>)
    ensures m == Applied(configs, providers)
  {
    m := configs;
    for i := 0 to |providers|
      invariant Applied(m, providers[i..]) == Applied(configs, providers)
    {
      assert providers[i..][1..] == providers[i + 1..];
      m := m[providers[i].id := providers[i]];
    }
  }

  method EffectiveProviders(configs: map<string, Provider>) returns (out: seq<Effective>)
    ensures out == EffectiveOf(configs, DEFAULTS)
    ensures forall i :: 0 <= i < |DEFAULTS| ==>
              Settled(out[i].settings, Lookup(configs, DEFAULTS[i].id), DEFAULTS[i])
  {
    hide DEFAULTS, Settled;
    out := [];
    for i := 0 to |DEFAULTS|
      invariant |out| == i && forall j :: 0 <= j < i ==> out[j] == EffectiveOne(configs, DEFAULTS[j])
      invariant forall j :: 0 <= j < i ==>
                  Settled(out[j].settings, Lookup(configs, DEFAULTS[j].id), DEFAULTS[j])
    {
      var d := DEFAULTS[i];
      InEffect(configs, d);
      var merged := d;
      if d.id in configs {
        var file := configs[d.id];
        merged := merged.(enabled := file.enabled);
        if file.title != "" {
          merged := merged.(title := file.title);
        }
        if file.keyEnv != "" {
          merged := merged.(keyEnv := file.keyEnv);
        }
        if file.hasProbe {
          merged := merged.(hasProbe := true, probe := file.probe);
        }
        if file.plan.Some? {
          merged := merged.(plan := file.plan);
        }
      }
      out := out + [Effective(merged, d.id == GROQ)];
    }
  }

  // --- the table is sound ---

  predicate SoundDefault(d: Provider)
  {
    && d.title != "" && ProviderScalars(d) && ReadableProvider(d) && !d.hasProbe && !d.probe
    && (d.plan.Some? ==> d.plan.value.hasCostUsd && d.plan.value.costUsd != ZERO)
  }

  predicate Tame(s: string)
  {
    forall i :: 0 <= i < |s| ==> ' ' <= s[i] <= '~' && s[i] != '"' && s[i] != '\\'
  }

  lemma TameSurvives(s: string)
    requires Tame(s)
    ensures Survives(s)
  {
  }

  lemma NotAKey(s: string)
    requires s == "" || (s[0] != 's' && s[0] != 'g')
    ensures !LooksLikeKey(s)
  {
  }

  predicate TameProvider(d: Provider)
  {
    && Tame(d.id) && Tame(d.title) && Tame(d.keyEnv)
    && (d.plan.Some? ==> Tame(d.plan.value.currency) && Tame(d.plan.value.title))
  }

  lemma TameIds()
    ensures Tame("claude") && Tame("codex")
    ensures Tame("groq") && Tame("opencode:go")
  {
  }

  lemma TameLongIds()
    ensures Tame("openrouter:main") && Tame("openrouter:fallback")
  {
  }

  lemma TameTitles()
    ensures Tame("Claude") && Tame("ChatGPT")
    ensures Tame("Groq") && Tame("OpenCode Go")
  {
  }

  lemma TameLongTitles()
    ensures Tame("OpenRouter main") && Tame("OpenRouter fallback")
  {
  }

  lemma TameEnvs()
    ensures Tame("") && Tame("OPENROUTER_API_KEY")
    ensures Tame("GROQ_API_KEY") && Tame("OPENCODE_API_KEY")
  {
  }

  lemma TameLongEnvs()
    ensures Tame("OPENROUTER_API_KEY_FALLBACK")
  {
  }

  lemma TamePlans()
    ensures Tame("BRL") && Tame("USD")
    ensures Tame("Max 20x") && Tame("Plus")
    ensures Tame("Go")
  {
  }

  lemma DefaultsAreTame()
    ensures forall i :: 0 <= i < |DEFAULTS| ==> TameProvider(DEFAULTS[i])
  {
    hide Tame;
    TameIds();
    TameLongIds();
    TameTitles();
    TameLongTitles();
    TameEnvs();
    TameLongEnvs();
    TamePlans();
  }

  lemma DefaultsShape()
    ensures |DEFAULTS| == 6 && |DEFAULT_ORDER| == 6 && ValidIds(DEFAULTS)
    ensures forall i :: 0 <= i < 6 ==> DEFAULT_ORDER[i] == DEFAULTS[i].id
  {
    assert forall i :: 0 <= i < 6 ==> DEFAULTS[i].id != "";
    assert |DEFAULTS[0].id| == 6 && |DEFAULTS[1].id| == 5 && |DEFAULTS[2].id| == 15;
    assert |DEFAULTS[3].id| == 19 && |DEFAULTS[4].id| == 4 && |DEFAULTS[5].id| == 11;
  }

  lemma SoundFromTame(d: Provider)
    requires TameProvider(d) && d.title != "" && !d.hasProbe && !d.probe
    requires d.keyEnv == "" || (d.keyEnv[0] != 's' && d.keyEnv[0] != 'g')
    requires d.plan.Some? ==> d.plan.value.hasCostUsd && d.plan.value.costUsd != ZERO
    ensures SoundDefault(d)
  {
    hide Tame, Survives, LooksLikeKey;
    TameSurvives(d.id);
    TameSurvives(d.title);
    TameSurvives(d.keyEnv);
    NotAKey(d.keyEnv);
    if d.plan.Some? {
      TameSurvives(d.plan.value.currency);
      TameSurvives(d.plan.value.title);
    }
  }

  lemma DefaultsAreSound(i: nat)
    requires i < |DEFAULTS|
    ensures SoundDefault(DEFAULTS[i])
  {
    hide TameProvider, SoundDefault;
    DefaultsAreTame();
    SoundFromTame(DEFAULTS[i]);
  }

  lemma {:induction false} DefaultFound(defaults: seq<Provider>, i: nat)
    requires i < |defaults| && ValidIds(defaults)
    ensures DefaultIn(defaults, defaults[i].id) == Some(defaults[i])
  {
    if i > 0 {
      DefaultFound(defaults[1..], i - 1);
    }
  }

  // --- what the lists hold ---

  lemma {:induction false} OverridesAppend(a: seq<Provider>, b: seq<Provider>)
    ensures Overrides(a + b) == Overrides(a) + Overrides(b)
  {
    hide Saved;
    if a == [] {
      assert a + b == b;
    } else {
      OverridesAppend(a[1..], b);
      assert (a + b)[1..] == a[1..] + b;
    }
  }

  /** Loading providers with distinct ids: each id finds its own provider, other ids find what was there. */
  lemma {:induction false} AppliedFinds(m: map<string, Provider>, providers: seq<Provider>, id: string)
    requires ValidIds(providers)
    ensures (exists i :: 0 <= i < |providers| && providers[i].id == id) ==>
              id in Applied(m, providers) && Applied(m, providers)[id] in providers
              && Applied(m, providers)[id].id == id
    ensures !(exists i :: 0 <= i < |providers| && providers[i].id == id) ==>
              (id in Applied(m, providers) <==> id in m)
              && (id in m ==> Applied(m, providers)[id] == m[id])
    decreases |providers|
  {
    if providers != [] {
      var next := m[providers[0].id := providers[0]];
      assert forall i :: 0 <= i < |providers[1..]| ==> providers[1..][i] == providers[i + 1];
      AppliedFinds(next, providers[1..], id);
    }
  }

  /** What one built-in id contributes to the saved list. */
  function SavedOf(m: map<string, Provider>, id: string): seq<Provider>
  {
    if id in m then Saved(m[id]) else []
  }

  function SavedFor(m: map<string, Provider>, order: seq<string>): seq<Provider>
  {
    if order == [] then [] else SavedOf(m, order[0]) + SavedFor(m, order[1..])
  }

  lemma {:induction false} SavedInOrder(m: map<string, Provider>, order: seq<string>)
    ensures Overrides(InOrder(m, order)) == SavedFor(m, order)
  {
    hide Saved;
    if order != [] {
      SavedInOrder(m, order[1..]);
      if order[0] in m {
        var p := m[order[0]];
        OverridesAppend([p], InOrder(m, order[1..]));
        assert Overrides([p]) == Saved(p) + Overrides([]);
        assert Saved(p) + [] == Saved(p);
      } else {
        assert [] + InOrder(m, order[1..]) == InOrder(m, order[1..]);
        assert [] + SavedFor(m, order[1..]) == SavedFor(m, order[1..]);
      }
    }
  }

  /** How the settings handler builds its map. */
  predicate Payload(m: map<string, Provider>)
  {
    forall id :: id in m ==>
      && m[id].id == id && (m[id].probe ==> m[id].hasProbe)
      && (m[id].plan.Some? ==> m[id].plan.value.hasCostUsd || m[id].plan.value.costUsd == ZERO)
  }

  lemma SavedOfIs(m: map<string, Provider>, i: nat)
    requires Payload(m) && i < |DEFAULTS|
    ensures var d := DEFAULTS[i];
            SavedOf(m, d.id) == if d.id !in m || ProviderEqual(MergeWithDefault(m[d.id], d), d) then []
                                else [MergeWithDefault(m[d.id], d)]
  {
    hide DEFAULTS, ProviderEqual, MergeWithDefault;
    DefaultsShape();
    DefaultFound(DEFAULTS, i);
  }

  lemma {:induction false} SavedMembers(m: map<string, Provider>, order: seq<string>)
    ensures forall q :: q in SavedFor(m, order) <==> exists i :: 0 <= i < |order| && q in SavedOf(m, order[i])
  {
    hide SavedOf;
    if order != [] {
      SavedMembers(m, order[1..]);
      assert forall i :: 0 <= i < |order| - 1 ==> order[1..][i] == order[i + 1];
      assert forall i :: 0 < i < |order| ==> order[i] == order[1..][i - 1];
    }
  }

  lemma SavedOfId(m: map<string, Provider>, id: string)
    requires Payload(m)
    ensures |SavedOf(m, id)| <= 1 && forall q :: q in SavedOf(m, id) ==> q.id == id
  {
    hide DEFAULTS, ProviderEqual;
    if id in m {
      FoundId(DEFAULTS, id);
    }
  }

  predicate DistinctOrder(order: seq<string>)
  {
    && (forall i :: 0 <= i < |order| ==> order[i] != "")
    && (forall i, j :: 0 <= i < j < |order| ==> order[i] != order[j])
  }

  lemma {:induction false} SavedIds(m: map<string, Provider>, order: seq<string>)
    requires Payload(m) && DistinctOrder(order)
    ensures ValidIds(SavedFor(m, order))
    ensures forall q :: q in SavedFor(m, order) ==> q.id in order
  {
    hide Payload, SavedOf;
    if order != [] {
      SavedIds(m, order[1..]);
      SavedOfId(m, order[0]);
    }
  }

  /** What a reload finds for a built-in id is what was saved for it. */
  lemma Reloaded(m: map<string, Provider>, i: nat)
    requires Payload(m) && i < |DEFAULTS|
    ensures var d, loaded := DEFAULTS[i], Applied(map[], SavedFor(m, DEFAULT_ORDER));
            if SavedOf(m, d.id) == [] then d.id !in loaded
            else d.id in loaded && loaded[d.id] == SavedOf(m, d.id)[0]
  {
    DefaultsShape();
    hide DEFAULTS, DEFAULT_ORDER, SavedOf, SavedFor, Payload, Applied;
    var d, saved := DEFAULTS[i], SavedFor(m, DEFAULT_ORDER);
    SavedIds(m, DEFAULT_ORDER);
    SavedMembers(m, DEFAULT_ORDER);
    AppliedFinds(map[], saved, d.id);
    SavedOfId(m, d.id);
    forall q | q in saved && q.id == d.id
      ensures q in SavedOf(m, d.id)
    {
      var j :| 0 <= j < |DEFAULT_ORDER| && q in SavedOf(m, DEFAULT_ORDER[j]);
      SavedOfId(m, DEFAULT_ORDER[j]);
    }
    if SavedOf(m, d.id) != [] {
      var q := SavedOf(m, d.id)[0];
      assert q in SavedOf(m, DEFAULT_ORDER[i]);
      assert q in saved;
    }
  }

  lemma MergeIdempotent(p: Provider, d: Provider)
    ensures MergeWithDefault(MergeWithDefault(p, d), d) == MergeWithDefault(p, d)
  {
  }

  /** The same settings, except that "probe is off" may have become "probe is not set". */
  predicate SameEffective(after: Effective, before: Effective)
  {
    && after.canProbe == before.canProbe
    && after.settings.(hasProbe := before.settings.hasProbe) == before.settings
    && (after.settings.hasProbe ==> before.settings.hasProbe)
  }

  lemma DroppedIsSame(p: Provider, d: Provider)
    requires SoundDefault(d) && ProviderEqual(MergeWithDefault(p, d), d)
    requires p.plan.Some? ==> p.plan.value.hasCostUsd || p.plan.value.costUsd == ZERO
    ensures d.(hasProbe := p.hasProbe) == MergeWithDefault(p, d)
  {
    hide ProviderScalars, ReadableProvider;
  }

  lemma NoProbe(d: Provider)
    requires SoundDefault(d)
    ensures !d.hasProbe
  {
  }

  lemma ReloadedIsSame(m: map<string, Provider>, i: nat)
    requires Payload(m) && i < |DEFAULTS|
    ensures SameEffective(EffectiveOne(Applied(map[], SavedFor(m, DEFAULT_ORDER)), DEFAULTS[i]),
                          EffectiveOne(m, DEFAULTS[i]))
  {
    hide DEFAULTS, DEFAULT_ORDER, SavedOf, SavedFor, Applied, MergeWithDefault, ProviderEqual, SoundDefault;
    var d := DEFAULTS[i];
    Reloaded(m, i);
    SavedOfIs(m, i);
    DefaultsAreSound(i);
    NoProbe(d);
    if d.id in m {
      MergeIdempotent(m[d.id], d);
      if ProviderEqual(MergeWithDefault(m[d.id], d), d) {
        DroppedIsSame(m[d.id], d);
      }
    }
  }

  // --- the file written for a payload ---

  /** The built-in part of a payload: each string survives being written. */
  predicate PayloadScalars(m: map<string, Provider>)
  {
    forall id :: id in m && id in DEFAULT_ORDER ==> ProviderScalars(m[id])
  }

  predicate PayloadReadable(m: map<string, Provider>)
  {
    forall id :: id in m && id in DEFAULT_ORDER ==> ReadableProvider(m[id])
  }

  lemma SavedProvider(p: Provider, d: Provider)
    requires SoundDefault(d) && ProviderScalars(p) && (p.probe ==> p.hasProbe)
    requires p.plan.Some? ==> p.plan.value.hasCostUsd || p.plan.value.costUsd == ZERO
    ensures var q := MergeWithDefault(p, d);
            && ProviderScalars(q) && NormalProvider(q) == q
            && ReadableProvider(q) == ReadableProvider(p)
            && (ProviderEqual(q, d) ==> ReadableProvider(p))
  {
    hide Survives, LooksLikeKey;
    EmptyKeyEnv();
  }

  lemma SavedOfGood(m: map<string, Provider>, i: nat)
    requires Payload(m) && PayloadScalars(m) && i < |DEFAULTS|
    ensures var id := DEFAULT_ORDER[i];
            && (forall q :: q in SavedOf(m, id) ==> ProviderScalars(q) && NormalProvider(q) == q)
            && (AllReadable(SavedOf(m, id)) <==> (id in m ==> ReadableProvider(m[id])))
  {
    DefaultsShape();
    hide DEFAULTS, DEFAULT_ORDER, SavedOf, MergeWithDefault, ProviderEqual, SoundDefault, ProviderScalars,
         ReadableProvider, NormalProvider;
    SavedOfIs(m, i);
    DefaultsAreSound(i);
    var d := DEFAULTS[i];
    assert d.id in DEFAULT_ORDER;
    if d.id in m {
      SavedProvider(m[d.id], d);
    }
  }

  lemma SavedGood(m: map<string, Provider>)
    requires Payload(m) && PayloadScalars(m)
    ensures var saved := SavedFor(m, DEFAULT_ORDER);
            && ValidIds(saved) && NormalProviders(saved) == saved
            && (forall q :: q in saved ==> ProviderScalars(q))
            && (AllReadable(saved) <==> PayloadReadable(m))
  {
    DefaultsShape();
    hide DEFAULTS, DEFAULT_ORDER, SavedOf, SavedFor, Payload, ProviderScalars, ReadableProvider, NormalProvider;
    SavedIds(m, DEFAULT_ORDER);
    SavedMembers(m, DEFAULT_ORDER);
    forall i | 0 <= i < |DEFAULTS|
      ensures forall q :: q in SavedOf(m, DEFAULT_ORDER[i]) ==> ProviderScalars(q) && NormalProvider(q) == q
      ensures AllReadable(SavedOf(m, DEFAULT_ORDER[i]))
              <==> (DEFAULT_ORDER[i] in m ==> ReadableProvider(m[DEFAULT_ORDER[i]]))
    {
      SavedOfGood(m, i);
    }
    var saved := SavedFor(m, DEFAULT_ORDER);
    forall k | 0 <= k < |saved|
      ensures NormalProviders(saved)[k] == saved[k]
    {
      assert saved[k] in saved;
    }
  }

  /** Some key the printer writes is among the alerts, or there are none at all. */
  predicate AlertsReadable(alerts: map<string, Number>)
  {
    alerts == map[] || exists k :: k in ALERT_KEYS && k in alerts
  }

  /** What a payload makes of the file's providers. */
  lemma PayloadFile(m: map<string, Provider>, fc: FileConfig)
    requires Payload(m) && PayloadScalars(m) && Scalars(fc.(providers := []))
    requires fc.providers == Overrides(InOrder(m, DEFAULT_ORDER))
    ensures Scalars(fc) && ValidIds(fc.providers) && NormalProviders(fc.providers) == fc.providers
    ensures AllReadable(fc.providers) <==> PayloadReadable(m)
  {
    SavedInOrder(m, DEFAULT_ORDER);
    SavedGood(m);
    hide DEFAULT_ORDER, SavedFor, Payload, PayloadScalars, PayloadReadable, ProviderScalars, NormalProviders, Survives,
         ValidIds, AllReadable;
  }

  /** A file whose providers are already in normal form. */
  lemma SavedReadsBack(ft: FloatText, fc: FileConfig)
    requires Faithful(ft) && Scalars(fc) && ValidIds(fc.providers) && NormalProviders(fc.providers) == fc.providers
    ensures Parse(ft, Serialize(ft, fc))
            == if AllReadable(fc.providers) && AlertsReadable(fc.alerts) then Some(Normal(fc)) else None
    ensures Normal(fc) == fc
            <==> fc.intervalSec >= 0 && fc.deviceToken == "" && forall k :: k in fc.alerts ==> k in ALERT_KEYS
  {
    hide ALERT_KEYS, Scalars, AllText, NormalProviders, Parse, Serialize, Faithful, ReturnedConfig, PrintedAlerts,
         ValidIds,
         AllReadable;
    ScalarsAreText(fc);
    ConfigReturnsIff(fc);
    SaveThenLoad(ft, fc);
    AlertsIff(fc.alerts);
  }

  /** A settings change, whatever its alerts and its other fields, each written string one that survives: the file
      written is read back exactly when every built-in provider of the payload is readable and the alerts are not the
      legacy one alone. It then holds the same values but for what is never written, and the providers in effect after
      the restart are those before it, up to "probe is off" against "probe is not set". */
  lemma SettingsSurviveRestart(ft: FloatText, m: map<string, Provider>, fc: FileConfig)
    requires Faithful(ft) && Payload(m) && PayloadScalars(m) && Scalars(fc.(providers := []))
    requires fc.providers == Overrides(InOrder(m, DEFAULT_ORDER))
    ensures Parse(ft, Serialize(ft, fc))
            == if PayloadReadable(m) && AlertsReadable(fc.alerts) then Some(Normal(fc)) else None
    ensures Normal(fc) == fc
            <==> fc.intervalSec >= 0 && fc.deviceToken == "" && forall k :: k in fc.alerts ==> k in ALERT_KEYS
    ensures Normal(fc).providers == fc.providers
    ensures forall i :: 0 <= i < |DEFAULTS| ==>
              SameEffective(EffectiveOf(Applied(map[], fc.providers), DEFAULTS)[i], EffectiveOf(m, DEFAULTS)[i])
  {
    hide DEFAULTS, DEFAULT_ORDER, ALERT_KEYS, Overrides, InOrder, Payload, PayloadScalars, PayloadReadable, Scalars,
         NormalProviders, Parse, Serialize, Applied, Faithful, SameEffective, ValidIds, AllReadable, AlertsReadable;
    PayloadFile(m, fc);
    SavedReadsBack(ft, fc);
    SavedInOrder(m, DEFAULT_ORDER);
    forall i | 0 <= i < |DEFAULTS|
      ensures SameEffective(EffectiveOf(Applied(map[], fc.providers), DEFAULTS)[i], EffectiveOf(m, DEFAULTS)[i])
    {
      ReloadedIsSame(m, i);
    }
  }

  lemma SameIsSettled(after: Effective, before: Effective, given: Option<Provider>, d: Provider)
    requires SameEffective(after, before) && Settled(before.settings, given, d)
    ensures Settled(after.settings, given, d)
  {
  }

  lemma SavedExactly(m: map<string, Provider>, i: nat)
    requires Payload(m) && i < |DEFAULTS|
    ensures var d := DEFAULTS[i];
            (exists q :: q in SavedFor(m, DEFAULT_ORDER) && q.id == d.id) <==> d.id in m && !AddsNothing(m[d.id], d)
  {
    DefaultsShape();
    DefaultFound(DEFAULTS, i);
    SavedMembers(m, DEFAULT_ORDER);
    hide DEFAULTS, DEFAULT_ORDER, SavedFor, AddsNothing, ValidIds, Saved;
    var d, saved := DEFAULTS[i], SavedFor(m, DEFAULT_ORDER);
    SavedOfId(m, d.id);
    if d.id in m {
      SavedMeaning(m[d.id]);
    }
    forall q | q in saved && q.id == d.id
      ensures q in SavedOf(m, d.id)
    {
      var j :| 0 <= j < |DEFAULT_ORDER| && q in SavedOf(m, DEFAULT_ORDER[j]);
      SavedOfId(m, DEFAULT_ORDER[j]);
    }
    if SavedOf(m, d.id) != [] {
      var q := SavedOf(m, d.id)[0];
      assert q in SavedOf(m, DEFAULT_ORDER[i]);
      assert q in saved && q.id == d.id;
    }
  }

  /** After a settings change and a restart, each built-in provider has the values the payload gave it, and its
      default's where it gave none; and the file names it exactly when it gave something else than those. */
  lemma PayloadTakesEffect(m: map<string, Provider>, i: nat)
    requires Payload(m) && i < |DEFAULTS|
    ensures var d, file := DEFAULTS[i], Overrides(InOrder(m, DEFAULT_ORDER));
            && Settled(EffectiveOf(Applied(map[], file), DEFAULTS)[i].settings, Lookup(m, d.id), d)
            && ((exists q :: q in file && q.id == d.id) <==> d.id in m && !AddsNothing(m[d.id], d))
  {
    DefaultsShape();
    hide DEFAULTS, DEFAULT_ORDER, Overrides, InOrder, SavedOf, SavedFor, Payload, Applied, SameEffective, Settled,
         AddsNothing, ValidIds;
    var d := DEFAULTS[i];
    SavedInOrder(m, DEFAULT_ORDER);
    ReloadedIsSame(m, i);
    InEffect(m, d);
    var saved := SavedFor(m, DEFAULT_ORDER);
    SameIsSettled(EffectiveOne(Applied(map[], saved), d), EffectiveOne(m, d), Lookup(m, d.id), d);
    SavedExactly(m, i);
  }

  // --- two payloads the handler accepts and the next start refuses ---

  const BLANK_PLAN := map["codex" := EMPTY_PROVIDER.(id := "codex", plan := Some(EMPTY_PLAN))]

  lemma BlankPlan()
    ensures "codex" in BLANK_PLAN && BLANK_PLAN["codex"].plan == Some(EMPTY_PLAN)
    ensures Payload(BLANK_PLAN) && PayloadScalars(BLANK_PLAN)
  {
    hide DEFAULT_ORDER;
    TameIds();
    TameEnvs();
    TameSurvives("codex");
    TameSurvives("");
  }

  lemma EmptyIsScalar()
    ensures Scalars(EMPTY_CONFIG)
  {
    TameEnvs();
    TameSurvives("");
  }

  /** A provider with an empty plan block: the file written for it is not one the parser accepts. */
  lemma EmptyPlanIsRefused(ft: FloatText)
    requires Faithful(ft)
    ensures Payload(BLANK_PLAN)
    ensures Parse(ft, Serialize(ft, EMPTY_CONFIG.(providers := Overrides(InOrder(BLANK_PLAN, DEFAULT_ORDER))))) == None
  {
    var m := BLANK_PLAN;
    assert DEFAULT_ORDER[1] == "codex";
    hide DEFAULTS, DEFAULT_ORDER, BLANK_PLAN, LooksLikeKey, Faithful, Parse, Serialize, Overrides, InOrder;
    BlankPlan();
    EmptyIsScalar();
    SettingsSurviveRestart(ft, m, EMPTY_CONFIG.(providers := Overrides(InOrder(m, DEFAULT_ORDER))));
    assert "codex" in m && !ReadableProvider(m["codex"]);
  }

  lemma LegacyIsNotWritten()
    ensures LEGACY_ALERT_KEY !in ALERT_KEYS && ValidAlertKey(LEGACY_ALERT_KEY)
  {
    assert |ALERT_KEYS[0]| == 18 && |ALERT_KEYS[1]| == 17 && |ALERT_KEYS[2]| == 21 && |LEGACY_ALERT_KEY| == 14;
  }

  lemma {:induction false} NoProviders(order: seq<string>)
    ensures Overrides(InOrder(map[], order)) == []
  {
    hide Saved;
    if order != [] {
      NoProviders(order[1..]);
      assert [] + InOrder(map[], order[1..]) == InOrder(map[], order[1..]);
    }
  }

  /** The legacy alert alone: the head of a block without lines is written, and refused. */
  lemma LegacyAlertIsRefused(ft: FloatText, x: Number)
    requires Faithful(ft)
    ensures ValidAlertKey(LEGACY_ALERT_KEY)
    ensures Parse(ft, Serialize(ft, EMPTY_CONFIG.(alerts := map[LEGACY_ALERT_KEY := x]))) == None
  {
    var fc := EMPTY_CONFIG.(alerts := map[LEGACY_ALERT_KEY := x]);
    LegacyIsNotWritten();
    hide ALERT_KEYS, LEGACY_ALERT_KEY, DEFAULTS, DEFAULT_ORDER, Faithful, Parse, Serialize;
    EmptyIsScalar();
    NoProviders(DEFAULT_ORDER);
    SettingsSurviveRestart(ft, map[], fc);
    assert LEGACY_ALERT_KEY in fc.alerts;
  }
}
