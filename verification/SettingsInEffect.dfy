/** The settings in effect: what a settings change and a start of the daemon make of them, and when the two agree. */
module SettingsInEffect {
  import opened Bytes
  import opened YamlScalar
  import opened YamlParse
  import opened YamlConfig
  import opened YamlRestart
  import opened ProviderDefaults

  const DEFAULT_INTERVAL := 900
  const DEFAULT_LISTEN := "0.0.0.0:8765"
  const DEFAULT_ZONE := "America/Sao_Paulo"
  const DEFAULT_WARN_5H := 70
  const DEFAULT_WARN_WEEKLY := 60

  /** The float64 bits of 1. */
  const DEFAULT_LOW_USD := Number(0x3ff0_0000_0000_0000)

  const LOW_USD_KEY := "openrouter_low_usd"
  const WARN_5H_KEY := "quota_warn_5h_pct"
  const WARN_WEEKLY_KEY := "quota_warn_weekly_pct"

  /** What the machine provides: which time zones can be loaded, and the conversion of a float64 to an int. */
  datatype Machine = Machine(zones: set<string>, toInt: Number -> int)

  datatype Live = Live(interval: int, listen: string, token: string, zone: string, order: seq<string>, lowUsd: Number,
                       warn5h: int, warnWeekly: int, configs: map<string, Provider>)

  /** Before any file is read. */
  function Initial(on: Machine): Live
  {
    Live(DEFAULT_INTERVAL, DEFAULT_LISTEN, "", if DEFAULT_ZONE in on.zones then DEFAULT_ZONE else "UTC",
         DEFAULT_ORDER, DEFAULT_LOW_USD, DEFAULT_WARN_5H, DEFAULT_WARN_WEEKLY, map[])
  }

  /** A threshold: its own key, else the legacy one, else what it was. */
  function Threshold(alerts: map<string, Number>, key: string, on: Machine, was: int): int
  {
    if key in alerts then on.toInt(alerts[key])
    else if LEGACY_ALERT_KEY in alerts then on.toInt(alerts[LEGACY_ALERT_KEY])
    else was
  }

  /** What a file or a settings change gives replaces what was in effect; nothing given leaves it alone. */
  function Given(x: Live, on: Machine, fc: FileConfig, configs: map<string, Provider>): Live
  {
    Live(if fc.intervalSec > 0 then fc.intervalSec else x.interval,
         if fc.listen != "" then fc.listen else x.listen,
         if fc.deviceToken != "" then fc.deviceToken else x.token,
         if fc.tz != "" && fc.tz in on.zones then fc.tz else x.zone,
         if fc.providerOrder != [] then fc.providerOrder else x.order,
         if LOW_USD_KEY in fc.alerts then fc.alerts[LOW_USD_KEY] else x.lowUsd,
         Threshold(fc.alerts, WARN_5H_KEY, on, x.warn5h),
         Threshold(fc.alerts, WARN_WEEKLY_KEY, on, x.warnWeekly), configs)
  }

  /** The configuration object. */
  class Config {
    const on: Machine
    var interval: int
    var listen: string
    var token: string
    var zone: string
    var order: seq<string>
    var lowUsd: Number
    var warn5h: int
    var warnWeekly: int
    var configs: map<string, Provider>

    function View(): Live
      reads this
    {
      Live(interval, listen, token, zone, order, lowUsd, warn5h, warnWeekly, configs)
    }

    constructor (on: Machine)
      ensures this.on == on && View() == Initial(on)
      ensures interval == DEFAULT_INTERVAL && listen == DEFAULT_LISTEN && token == "" && order == DEFAULT_ORDER
      ensures zone == DEFAULT_ZONE <==> DEFAULT_ZONE in on.zones
      ensures zone == "UTC" <==> DEFAULT_ZONE !in on.zones
      ensures lowUsd == DEFAULT_LOW_USD && warn5h == DEFAULT_WARN_5H && warnWeekly == DEFAULT_WARN_WEEKLY
      ensures configs == map[]
    {
      this.on := on;
      interval, listen, token, order := DEFAULT_INTERVAL, DEFAULT_LISTEN, "", DEFAULT_ORDER;
      zone := if DEFAULT_ZONE in on.zones then DEFAULT_ZONE else "UTC";
      lowUsd, warn5h, warnWeekly := DEFAULT_LOW_USD, DEFAULT_WARN_5H, DEFAULT_WARN_WEEKLY;
      configs := map[];
    }

    /** The legacy threshold seeds both new ones; a new one of its own takes precedence. */
    method ApplyAlerts(alerts: map<string, Number>)
      modifies this`lowUsd, this`warn5h, this`warnWeekly
      ensures lowUsd == if LOW_USD_KEY in alerts then alerts[LOW_USD_KEY] else old(lowUsd)
      ensures warn5h == Threshold(alerts, WARN_5H_KEY, on, old(warn5h))
      ensures warnWeekly == Threshold(alerts, WARN_WEEKLY_KEY, on, old(warnWeekly))
    {
      if LEGACY_ALERT_KEY in alerts {
        warn5h := on.toInt(alerts[LEGACY_ALERT_KEY]);
        warnWeekly := on.toInt(alerts[LEGACY_ALERT_KEY]);
      }
      if WARN_5H_KEY in alerts {
        warn5h := on.toInt(alerts[WARN_5H_KEY]);
      }
      if WARN_WEEKLY_KEY in alerts {
        warnWeekly := on.toInt(alerts[WARN_WEEKLY_KEY]);
      }
      if LOW_USD_KEY in alerts {
        lowUsd := alerts[LOW_USD_KEY];
      }
    }

    /** The listen address, the time zone and the display order, each kept when none is given. */
    method ApplyText(fc: FileConfig)
      modifies this`listen, this`zone, this`order
      ensures listen == if fc.listen != "" then fc.listen else old(listen)
      ensures zone == if fc.tz != "" && fc.tz in on.zones then fc.tz else old(zone)
      ensures order == if fc.providerOrder != [] then fc.providerOrder else old(order)
    {
      if fc.listen != "" {
        listen := fc.listen;
      }
      if fc.tz != "" && fc.tz in on.zones {
        zone := fc.tz;
      }
      if fc.providerOrder != [] {
        order := fc.providerOrder;
      }
    }

    /** A start: the file's values over those in effect. */
    method ApplyFile(fc: FileConfig)
      modifies this
      ensures View() == Given(old(View()), on, fc, Applied(old(configs), fc.providers))
    {
      hide Threshold, Applied, LOW_USD_KEY, WARN_5H_KEY, WARN_WEEKLY_KEY;
      if fc.intervalSec > 0 {
        interval := fc.intervalSec;
      }
      if fc.deviceToken != "" {
        token := fc.deviceToken;
      }
      ApplyText(fc);
      ApplyAlerts(fc.alerts);
      configs := ApplyProviders(configs, fc.providers);
    }

    /** A settings change: the payload's values over those in effect, the providers as a whole. Returns what is written
        to the file. */
    method SetConfig(body: FileConfig, providers: map<string, Provider>) returns (fc: FileConfig)
      requires body.intervalSec >= 0 && body.deviceToken == ""
      modifies this
      ensures fc == body.(providers := Overrides(InOrder(providers, DEFAULT_ORDER)))
      ensures View() == Given(old(View()), on, fc, providers)
    {
      hide Threshold, Overrides, InOrder, DEFAULT_ORDER, LOW_USD_KEY, WARN_5H_KEY, WARN_WEEKLY_KEY;
      var listed := BuildYamlProviders(providers);
      var saved := OverridesOnly(listed);
      fc := body.(providers := saved);
      if body.intervalSec != 0 {
        interval := body.intervalSec;
      }
      ApplyText(body);
      configs := providers;
      ApplyAlerts(body.alerts);
    }
  }

  // --- runs of changes ---

  /** Settings changes one after the other, each with the providers of its payload. */
  datatype Change = Change(fc: FileConfig, providers: map<string, Provider>)

  function AfterChanges(x: Live, on: Machine, changes: seq<Change>): Live
  {
    if changes == [] then x
    else
      var last := changes[|changes| - 1];
      Given(AfterChanges(x, on, changes[..|changes| - 1]), on, last.fc, last.providers)
  }

  /** What the last of the changes that gives a value gives, or what was there. */
  function LastGiven<T>(changes: seq<Change>, gives: Change -> Option<T>, was: T): T
  {
    if changes == [] then was
    else if gives(changes[|changes| - 1]).Some? then gives(changes[|changes| - 1]).value
    else LastGiven(changes[..|changes| - 1], gives, was)
  }

  function GivesInterval(c: Change): Option<int>
  {
    if c.fc.intervalSec > 0 then Some(c.fc.intervalSec) else None
  }

  function GivesText(text: string): Option<string>
  {
    if text == "" then None else Some(text)
  }

  /** Only a zone the machine knows counts as given. */
  function GivesZone(on: Machine, c: Change): Option<string>
  {
    if c.fc.tz in on.zones then GivesText(c.fc.tz) else None
  }

  function GivesOrder(c: Change): Option<seq<string>>
  {
    if c.fc.providerOrder == [] then None else Some(c.fc.providerOrder)
  }

  function GivesAlert(c: Change, key: string): Option<Number>
  {
    if key in c.fc.alerts then Some(c.fc.alerts[key]) else None
  }

  /** The legacy key gives both thresholds, unless they are given on their own. */
  function GivesThreshold(on: Machine, c: Change, key: string): Option<int>
  {
    match GivesAlert(c, key)
    case Some(v) => Some(on.toInt(v))
    case None => match GivesAlert(c, LEGACY_ALERT_KEY) case Some(v) => Some(on.toInt(v)) case None => None
  }

  /** After any run of changes, each setting is the last one given, and the providers are those of the last payload. */
  lemma {:induction false} LastGivenCounts(x: Live, on: Machine, changes: seq<Change>)
    ensures var after := AfterChanges(x, on, changes);
            && after.interval == LastGiven(changes, GivesInterval, x.interval)
            && after.listen == LastGiven(changes, (c: Change) => GivesText(c.fc.listen), x.listen)
            && after.token == LastGiven(changes, (c: Change) => GivesText(c.fc.deviceToken), x.token)
            && after.zone == LastGiven(changes, (c: Change) => GivesZone(on, c), x.zone)
            && after.order == LastGiven(changes, GivesOrder, x.order)
            && after.lowUsd == LastGiven(changes, (c: Change) => GivesAlert(c, LOW_USD_KEY), x.lowUsd)
            && after.warn5h == LastGiven(changes, (c: Change) => GivesThreshold(on, c, WARN_5H_KEY), x.warn5h)
            && after.warnWeekly
               == LastGiven(changes, (c: Change) => GivesThreshold(on, c, WARN_WEEKLY_KEY), x.warnWeekly)
            && after.configs == if changes == [] then x.configs else changes[|changes| - 1].providers
  {
    hide LOW_USD_KEY, WARN_5H_KEY, WARN_WEEKLY_KEY, LEGACY_ALERT_KEY;
    if changes != [] {
      LastGivenCounts(x, on, changes[..|changes| - 1]);
    }
  }

  /** The next start, from the file that was written. */
  function Restarted(on: Machine, fc: FileConfig): Live
  {
    Given(Initial(on), on, Normal(fc), Applied(map[], Normal(fc).providers))
  }

  /** A threshold that the next start finds as it is: given by its own key, or at its default anyway. */
  predicate ThresholdKept(alerts: map<string, Number>, key: string, on: Machine, was: int, initial: int)
  {
    key in alerts || Threshold(alerts, key, on, was) == initial
  }

  /** Each setting is one the payload gives, or at its default anyway. The device token is none that it can give. */
  predicate AllGiven(x: Live, on: Machine, fc: FileConfig)
  {
    && (fc.intervalSec > 0 || x.interval == DEFAULT_INTERVAL)
    && (fc.listen != "" || x.listen == DEFAULT_LISTEN)
    && x.token == ""
    && ((fc.tz != "" && fc.tz in on.zones) || x.zone == Initial(on).zone)
    && (fc.providerOrder != [] || x.order == DEFAULT_ORDER)
    && (LOW_USD_KEY in fc.alerts || x.lowUsd == DEFAULT_LOW_USD)
    && ThresholdKept(fc.alerts, WARN_5H_KEY, on, x.warn5h, DEFAULT_WARN_5H)
    && ThresholdKept(fc.alerts, WARN_WEEKLY_KEY, on, x.warnWeekly, DEFAULT_WARN_WEEKLY)
  }

  lemma PrintedKeys(alerts: map<string, Number>)
    ensures LEGACY_ALERT_KEY !in PrintedAlerts(alerts)
    ensures forall k :: k in [LOW_USD_KEY, WARN_5H_KEY, WARN_WEEKLY_KEY] ==>
              && (k in PrintedAlerts(alerts) <==> k in alerts)
              && (k in alerts ==> PrintedAlerts(alerts)[k] == alerts[k])
  {
    LegacyIsNotWritten();
    assert ALERT_KEYS == [LOW_USD_KEY, WARN_5H_KEY, WARN_WEEKLY_KEY];
    hide ALERT_KEYS, LOW_USD_KEY, WARN_5H_KEY, WARN_WEEKLY_KEY, LEGACY_ALERT_KEY;
  }

  /** Exactly when a restart leaves all settings but the providers' in effect as a settings change left them. What the
      payload does not give is not in the file any more: it falls back to its default, and so does a threshold that
      only the legacy key gave. */
  lemma RestartKeepsIff(x: Live, on: Machine, fc: FileConfig, configs: map<string, Provider>)
    requires fc.intervalSec >= 0 && fc.deviceToken == ""
    ensures Restarted(on, fc).(configs := configs) == Given(x, on, fc, configs) <==> AllGiven(x, on, fc)
  {
    PrintedKeys(fc.alerts);
    hide ALERT_KEYS, LOW_USD_KEY, WARN_5H_KEY, WARN_WEEKLY_KEY, LEGACY_ALERT_KEY, DEFAULT_ORDER, DEFAULT_LISTEN,
         DEFAULT_ZONE, PrintedAlerts, NormalProviders, Applied;
  }

  /** A settings change and the start after it, end to end: the file is accepted exactly when it is readable, and then
      every provider is in effect as before, and every other setting exactly when it was given. */
  lemma ChangeThenRestart(ft: FloatText, x: Live, on: Machine, m: map<string, Provider>, fc: FileConfig)
    requires Faithful(ft) && Payload(m) && PayloadScalars(m) && Scalars(fc.(providers := []))
    requires fc.intervalSec >= 0 && fc.deviceToken == ""
    requires fc.providers == Overrides(InOrder(m, DEFAULT_ORDER))
    ensures var read, live := Parse(ft, Serialize(ft, fc)), Given(x, on, fc, m);
            && (read.Some? <==> PayloadReadable(m) && AlertsReadable(fc.alerts))
            && (read.Some? ==>
                  var after := Given(Initial(on), on, read.value, Applied(map[], read.value.providers));
                  && (after.(configs := m) == live <==> AllGiven(x, on, fc))
                  && forall i :: 0 <= i < |DEFAULTS| ==>
                       SameEffective(EffectiveOf(after.configs, DEFAULTS)[i], EffectiveOf(live.configs, DEFAULTS)[i]))
  {
    hide DEFAULTS, DEFAULT_ORDER, ALERT_KEYS, Overrides, InOrder, Payload, PayloadScalars, PayloadReadable, Scalars,
         Parse, Serialize, Applied, Faithful, SameEffective, AlertsReadable, Normal, AllGiven, Initial;
    SettingsSurviveRestart(ft, m, fc);
    RestartKeepsIff(x, on, fc, m);
  }

  /** A device token from the file the daemon was started with: every settings change leaves it in effect, and writes a
      file without it, so the next start has none. */
  lemma TokenIsForgotten(x: Live, on: Machine, fc: FileConfig, configs: map<string, Provider>)
    requires fc.intervalSec >= 0 && fc.deviceToken == "" && x.token != ""
    ensures Given(x, on, fc, configs).token == x.token && Restarted(on, fc).token == ""
    ensures Restarted(on, fc).(configs := configs) != Given(x, on, fc, configs)
  {
    hide Threshold, DEFAULT_LISTEN, DEFAULT_ZONE, DEFAULT_ORDER, PrintedAlerts, NormalProviders, Applied;
  }

  lemma KeysDiffer()
    ensures WARN_WEEKLY_KEY != WARN_5H_KEY && WARN_WEEKLY_KEY != LEGACY_ALERT_KEY && WARN_5H_KEY != LEGACY_ALERT_KEY
  {
    assert |WARN_WEEKLY_KEY| == 21 && |WARN_5H_KEY| == 17 && |LEGACY_ALERT_KEY| == 14;
  }

  /** A payload with the legacy key and one new key: the other threshold is seeded in memory and back at its default
      after the next start. */
  lemma LegacySeedIsForgotten(x: Live, on: Machine, seed: Number, five: Number)
    requires on.toInt(seed) != DEFAULT_WARN_WEEKLY
    ensures var fc := EMPTY_CONFIG.(alerts := map[LEGACY_ALERT_KEY := seed, WARN_5H_KEY := five]);
            && AlertsReadable(fc.alerts)
            && Given(x, on, fc, x.configs).warnWeekly == on.toInt(seed)
            && Restarted(on, fc).warnWeekly == DEFAULT_WARN_WEEKLY
  {
    var alerts := map[LEGACY_ALERT_KEY := seed, WARN_5H_KEY := five];
    KeysDiffer();
    PrintedKeys(alerts);
    assert ALERT_KEYS[1] == WARN_5H_KEY;
    hide ALERT_KEYS, LOW_USD_KEY, WARN_5H_KEY, WARN_WEEKLY_KEY, LEGACY_ALERT_KEY, DEFAULT_ORDER, DEFAULT_LISTEN,
         DEFAULT_ZONE, PrintedAlerts, NormalProviders, Applied;
    assert WARN_5H_KEY in alerts;
  }
}
