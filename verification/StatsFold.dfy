/** Reading one Codex transcript: lines to bookings to per-model and per-day totals. */
module StatsFold {
  datatype Tokens = Tokens(input: int, output: int, cacheRead: int, cacheWrite: int)
  {
    function Add(b: Tokens): Tokens
    {
      Tokens(input + b.input, output + b.output, cacheRead + b.cacheRead, cacheWrite + b.cacheWrite)
    }
  }

  const NO_TOKENS := Tokens(0, 0, 0, 0)
  const UNKNOWN := "<unknown>"

  /** The fields the scan reads from a line; day is its timestamp's day key. A line that is not JSON is Garbled. */
  datatype Line =
    | Garbled
    | Line(kind: string, payloadKind: string, model: string, settingsModel: string, infoModel: string,
           input: int, cached: int, output: int, reasoning: int, day: string)

  /** What a scan carries from line to line, and from one scan of a file to the next. */
  datatype Carry = Carry(model: string, day: string)

  const BLANK := Carry("", "")

  /** One token_count line, as it is booked. */
  datatype Booking = Booking(model: string, day: string, tokens: Tokens)

  predicate IsContext(l: Line)
  {
    l.Line? && (l.kind == "turn_context" || (l.kind == "event_msg" && l.payloadKind == "turn_context"))
  }

  predicate IsSettings(l: Line)
  {
    l.Line? && l.kind == "event_msg" && l.payloadKind == "thread_settings_applied"
  }

  predicate IsCount(l: Line)
  {
    l.Line? && l.kind == "event_msg" && l.payloadKind == "token_count"
  }

  function Carried(c: Carry, l: Line): Carry
  {
    if IsContext(l) then Carry(if l.model != "" then l.model else c.model, l.day)
    else if IsSettings(l) then
      Carry(if l.settingsModel != "" then l.settingsModel else c.model, if c.day == "" then l.day else c.day)
    else c
  }

  function Booked(c: Carry, l: Line): Booking
    requires IsCount(l)
  {
    var named := if l.infoModel == "unknown" || l.infoModel == "" then c.model else l.infoModel;
    Booking(if named == "" || named == "unknown" then UNKNOWN else named,
            if c.day == "" then l.day else c.day,
            Tokens(l.input, l.output + l.reasoning, l.cached, 0))
  }

  /** The bookings of a stretch of lines read with that carry. */
  function Bookings(c: Carry, lines: seq<Line>): seq<Booking>
    decreases |lines|
  {
    if lines == [] then []
    else (if IsCount(lines[0]) then [Booked(c, lines[0])] else []) + Bookings(Carried(c, lines[0]), lines[1..])
  }

  function CarryAfter(c: Carry, lines: seq<Line>): Carry
    decreases |lines|
  {
    if lines == [] then c else CarryAfter(Carried(c, lines[0]), lines[1..])
  }

  /** Reading on with the carry is reading through. */
  lemma {:induction false} ReadingOn(c: Carry, a: seq<Line>, b: seq<Line>)
    ensures Bookings(c, a + b) == Bookings(c, a) + Bookings(CarryAfter(c, a), b)
    ensures CarryAfter(c, a + b) == CarryAfter(CarryAfter(c, a), b)
    decreases |a|
  {
    hide Booked, Carried, IsCount;
    if a == [] {
      assert a + b == b;
    } else {
      ReadingOn(Carried(c, a[0]), a[1..], b);
      assert (a + b)[1..] == a[1..] + b;
    }
  }

  // --- what is booked, told from the lines ---

  /** The model a line names for those after it, if any. */
  function Names(l: Line): string
  {
    if IsContext(l) then l.model else if IsSettings(l) then l.settingsModel else ""
  }

  /** The model named last. */
  function LastNamed(lines: seq<Line>): string
  {
    if lines == [] then ""
    else if Names(lines[|lines| - 1]) != "" then Names(lines[|lines| - 1])
    else LastNamed(lines[..|lines| - 1])
  }

  /** The lines after the last context line, that line's day being given first; all of them if there is none. */
  function LastContextDay(lines: seq<Line>, before: string): (r: (string, seq<Line>))
  {
    if lines == [] then (before, [])
    else
      var last := lines[|lines| - 1];
      if IsContext(last) then (last.day, [])
      else
        var r := LastContextDay(lines[..|lines| - 1], before);
        (r.0, r.1 + [last])
  }

  /** The first day a settings line has. */
  function FirstSettingsDay(lines: seq<Line>): string
  {
    if lines == [] then ""
    else if IsSettings(lines[0]) && lines[0].day != "" then lines[0].day
    else FirstSettingsDay(lines[1..])
  }

  lemma CarrySnoc(c: Carry, front: seq<Line>, last: Line)
    ensures CarryAfter(c, front + [last]) == Carried(CarryAfter(c, front), last)
  {
    ReadingOn(c, front, [last]);
    hide Carried;
    assert [last][1..] == [];
  }

  lemma {:induction false} FirstDaySnoc(lines: seq<Line>, last: Line)
    ensures FirstSettingsDay(lines + [last])
            == if FirstSettingsDay(lines) != "" then FirstSettingsDay(lines)
               else if IsSettings(last) then last.day else ""
    decreases |lines|
  {
    if lines == [] {
      assert ([] + [last])[1..] == [];
    } else {
      assert (lines + [last])[1..] == lines[1..] + [last];
      FirstDaySnoc(lines[1..], last);
    }
  }

  /** The carry after any lines: the model named last, and the day of the last context line or, when that has none, the
      first that a settings line has after it. */
  lemma {:induction false} CarryMeaning(c: Carry, lines: seq<Line>)
    ensures var after, r := CarryAfter(c, lines), LastContextDay(lines, c.day);
            && after.model == (if LastNamed(lines) != "" then LastNamed(lines) else c.model)
            && after.day == (if r.0 != "" then r.0 else FirstSettingsDay(r.1))
    decreases |lines|
  {
    if lines != [] {
      var front, last := lines[..|lines| - 1], lines[|lines| - 1];
      assert lines == front + [last];
      CarryMeaning(c, front);
      CarrySnoc(c, front, last);
      FirstDaySnoc(LastContextDay(front, c.day).1, last);
      hide CarryAfter;
    }
  }

  /** A model that is none. */
  predicate Nameless(model: string)
  {
    model == "" || model == "unknown"
  }

  /** Of any stretch of lines, each token count books one entry: under the model it names, else the one carried, else as
      unknown; on the day carried, else its own; its reasoning as output, its cached tokens as read from the cache. */
  lemma BookingOfLine(c: Carry, lines: seq<Line>, i: nat)
    requires i < |lines| && IsCount(lines[i])
    ensures var all, n := Bookings(c, lines), |Bookings(c, lines[..i])|;
            var carry, l := CarryAfter(c, lines[..i]), lines[i];
            && n < |all|
            && (!Nameless(l.infoModel) ==> all[n].model == l.infoModel)
            && (Nameless(l.infoModel) && !Nameless(carry.model) ==> all[n].model == carry.model)
            && (Nameless(l.infoModel) && Nameless(carry.model) ==> all[n].model == UNKNOWN)
            && (carry.day != "" ==> all[n].day == carry.day) && (carry.day == "" ==> all[n].day == l.day)
            && all[n].tokens.input == l.input && all[n].tokens.output == l.output + l.reasoning
            && all[n].tokens.cacheRead == l.cached && all[n].tokens.cacheWrite == 0
  {
    assert lines[..i] + lines[i..] == lines;
    ReadingOn(c, lines[..i], lines[i..]);
    assert lines[i..][0] == lines[i];
  }

  /** How many of the lines are token counts. */
  function CountLines(lines: seq<Line>): nat
  {
    if lines == [] then 0
    else CountLines(lines[..|lines| - 1]) + if IsCount(lines[|lines| - 1]) then 1 else 0
  }

  /** And nothing else books anything. */
  lemma {:induction false} OneBookingPerCount(c: Carry, lines: seq<Line>)
    ensures |Bookings(c, lines)| == CountLines(lines)
    decreases |lines|
  {
    hide IsCount, Booked, Carried;
    if lines != [] {
      var front, last := lines[..|lines| - 1], lines[|lines| - 1];
      assert lines == front + [last];
      OneBookingPerCount(c, front);
      ReadingOn(c, front, [last]);
      assert [last][1..] == [];
    }
  }

  lemma LineFirst(c: Carry, l: Line, rest: seq<Line>)
    ensures Bookings(c, [l] + rest)
            == (if IsCount(l) then [Booked(c, l)] else []) + Bookings(Carried(c, l), rest)
  {
    assert ([l] + rest)[1..] == rest;
  }

  lemma KindsDiffer()
    ensures "turn_context" != "event_msg" && "turn_context" != "thread_settings_applied"
    ensures "token_count" != "turn_context" && "token_count" != "thread_settings_applied"
    ensures "response_item" != "event_msg" && "response_item" != "turn_context"
  {
    assert |"turn_context"| == 12 && |"event_msg"| == 9 && |"thread_settings_applied"| == 23;
    assert |"token_count"| == 11 && |"response_item"| == 13;
  }

  const CONTEXT := Line("turn_context", "", "o3", "", "", 0, 0, 0, 0, "mon")
  const COUNT := Line("event_msg", "token_count", "", "", "", 100, 40, 20, 5, "mon")
  const SETTINGS := Line("event_msg", "thread_settings_applied", "", "o1", "", 0, 0, 0, 0, "tue")
  const UNNAMED_COUNT := Line("event_msg", "token_count", "", "", "unknown", 1, 2, 3, 4, "tue")
  const EVENT_CONTEXT := Line("event_msg", "turn_context", "", "", "", 0, 0, 0, 0, "wed")
  const OTHER := Line("response_item", "token_count", "", "", "", 9, 9, 9, 9, "wed")
  const NAMED_COUNT := Line("event_msg", "token_count", "", "", "gpt-4o", 7, 0, 8, 0, "thu")

  lemma SampleKinds()
    ensures IsContext(CONTEXT) && IsCount(COUNT) && IsSettings(SETTINGS) && IsCount(UNNAMED_COUNT)
    ensures IsContext(EVENT_CONTEXT) && IsCount(NAMED_COUNT)
    ensures !IsCount(CONTEXT) && !IsContext(COUNT) && !IsSettings(COUNT)
    ensures !IsContext(SETTINGS) && !IsCount(SETTINGS) && !IsContext(UNNAMED_COUNT) && !IsSettings(UNNAMED_COUNT)
    ensures !IsCount(EVENT_CONTEXT) && !IsContext(OTHER) && !IsSettings(OTHER) && !IsCount(OTHER)
  {
    KindsDiffer();
  }

  lemma SampleNames()
    ensures "o3" != "" && "o1" != "" && "o1" != "unknown" && "o3" != "unknown" && "mon" != "" && "wed" != ""
    ensures "gpt-4o" != "unknown" && "gpt-4o" != ""
    ensures !IsContext(Garbled) && !IsSettings(Garbled) && !IsCount(Garbled)
  {
    assert |"o3"| == 2 && |"o1"| == 2 && |"unknown"| == 7 && |"gpt-4o"| == 6;
  }

  lemma SampleEnd()
    ensures Bookings(Carry("o1", "mon"), [Garbled] + ([EVENT_CONTEXT] + ([OTHER] + ([NAMED_COUNT] + []))))
            == [Booking("gpt-4o", "wed", Tokens(7, 8, 0, 0))]
  {
    SampleKinds();
    SampleNames();
    hide IsContext, IsSettings, IsCount;
    var t7 := [NAMED_COUNT] + [];
    var t6 := [OTHER] + t7;
    var t5 := [EVENT_CONTEXT] + t6;
    LineFirst(Carry("o1", "wed"), NAMED_COUNT, []);
    LineFirst(Carry("o1", "wed"), OTHER, t7);
    LineFirst(Carry("o1", "mon"), EVENT_CONTEXT, t6);
    LineFirst(Carry("o1", "mon"), Garbled, t5);
  }

  /** A transcript with a line of each kind, and what is booked of it. */
  lemma SampleTranscript()
    ensures Bookings(BLANK, [CONTEXT] + ([COUNT] + ([SETTINGS] + ([UNNAMED_COUNT] + ([Garbled] + ([EVENT_CONTEXT]
                     + ([OTHER] + ([NAMED_COUNT] + []))))))))
            == [Booking("o3", "mon", Tokens(100, 25, 40, 0))] + ([Booking("o1", "mon", Tokens(1, 7, 2, 0))]
               + [Booking("gpt-4o", "wed", Tokens(7, 8, 0, 0))])
  {
    SampleKinds();
    SampleNames();
    SampleEnd();
    hide IsContext, IsSettings, IsCount;
    var t4 := [Garbled] + ([EVENT_CONTEXT] + ([OTHER] + ([NAMED_COUNT] + [])));
    var t3 := [UNNAMED_COUNT] + t4;
    var t2 := [SETTINGS] + t3;
    var t1 := [COUNT] + t2;
    LineFirst(Carry("o1", "mon"), UNNAMED_COUNT, t4);
    LineFirst(Carry("o3", "mon"), SETTINGS, t3);
    LineFirst(Carry("o3", "mon"), COUNT, t2);
    LineFirst(BLANK, CONTEXT, t1);
  }

  // --- totals over bookings ---

  /** The bookings of those days and those models. */
  predicate Picks(b: Booking, days: set<string>, models: set<string>)
  {
    b.day in days && b.model in models
  }

  function Sum(bs: seq<Booking>, days: set<string>, models: set<string>): Tokens
  {
    if bs == [] then NO_TOKENS
    else
      var front := Sum(bs[..|bs| - 1], days, models);
      if Picks(bs[|bs| - 1], days, models) then front.Add(bs[|bs| - 1].tokens) else front
  }

  function Count(bs: seq<Booking>, days: set<string>, models: set<string>): nat
  {
    if bs == [] then 0
    else Count(bs[..|bs| - 1], days, models) + if Picks(bs[|bs| - 1], days, models) then 1 else 0
  }

  function Models(bs: seq<Booking>): set<string>
  {
    set b | b in bs :: b.model
  }

  function Days(bs: seq<Booking>): set<string>
  {
    set b | b in bs :: b.day
  }

  function ModelsOn(bs: seq<Booking>, day: string): set<string>
  {
    set b | b in bs && b.day == day :: b.model
  }

  datatype ModelAgg = ModelAgg(tokens: Tokens, reqs: int)

  datatype DayAgg = DayAgg(tokens: Tokens, reqs: int, byModel: map<string, Tokens>)

  datatype FileResult = FileResult(models: map<string, ModelAgg>, days: map<string, DayAgg>)

  function ModelTotals(bs: seq<Booking>, m: string): ModelAgg
  {
    ModelAgg(Sum(bs, Days(bs), {m}), Count(bs, Days(bs), {m}))
  }

  function ByModel(bs: seq<Booking>, d: string): map<string, Tokens>
  {
    map m | m in ModelsOn(bs, d) :: Sum(bs, {d}, {m})
  }

  function DayTotals(bs: seq<Booking>, d: string): DayAgg
  {
    DayAgg(Sum(bs, {d}, Models(bs)), Count(bs, {d}, Models(bs)), ByModel(bs, d))
  }

  /** The aggregates of a list of bookings, key by key. */
  function ResultOf(bs: seq<Booking>): FileResult
  {
    FileResult(map m | m in Models(bs) :: ModelTotals(bs, m), map d | d in Days(bs) :: DayTotals(bs, d))
  }

  // --- the scan loop ---

  function Get(m: map<string, Tokens>, key: string): Tokens
  {
    if key in m then m[key] else NO_TOKENS
  }

  function GetReqs(m: map<string, int>, key: string): int
  {
    if key in m then m[key] else 0
  }

  /** The five maps of the loop hold the totals of what has been booked. */
  predicate Totalled(bs: seq<Booking>, models: map<string, Tokens>, reqs: map<string, int>,
                     dayTokens: map<string, Tokens>, dayReqs: map<string, int>,
                     dayModels: map<string, map<string, Tokens>>)
  {
    && models.Keys == reqs.Keys == Models(bs)
    && dayTokens.Keys == dayReqs.Keys == dayModels.Keys == Days(bs)
    && (forall m :: m in models ==> ModelAgg(models[m], reqs[m]) == ModelTotals(bs, m))
    && (forall d :: d in dayTokens ==> DayAgg(dayTokens[d], dayReqs[d], dayModels[d]) == DayTotals(bs, d))
  }

  function Gather(models: map<string, Tokens>, reqs: map<string, int>, dayTokens: map<string, Tokens>,
                  dayReqs: map<string, int>, dayModels: map<string, map<string, Tokens>>): FileResult
    requires models.Keys == reqs.Keys && dayTokens.Keys == dayReqs.Keys == dayModels.Keys
  {
    FileResult(map m | m in models :: ModelAgg(models[m], reqs[m]),
               map d | d in dayTokens :: DayAgg(dayTokens[d], dayReqs[d], dayModels[d]))
  }

  /** More days or models than the bookings have make no difference. */
  lemma {:induction false} SumWider(bs: seq<Booking>, days: set<string>, models: set<string>, moreDays: set<string>,
                                    moreModels: set<string>)
    requires forall b :: b in bs ==> (Picks(b, days, models) <==> Picks(b, moreDays, moreModels))
    ensures Sum(bs, days, models) == Sum(bs, moreDays, moreModels)
    ensures Count(bs, days, models) == Count(bs, moreDays, moreModels)
  {
    if bs != [] {
      assert bs[|bs| - 1] in bs;
      SumWider(bs[..|bs| - 1], days, models, moreDays, moreModels);
    }
  }

  lemma SetsOfSnoc(bs: seq<Booking>, b: Booking)
    ensures Models(bs + [b]) == Models(bs) + {b.model} && Days(bs + [b]) == Days(bs) + {b.day}
    ensures forall d :: ModelsOn(bs + [b], d) == if d == b.day then ModelsOn(bs, d) + {b.model} else ModelsOn(bs, d)
  {
    assert forall x :: x in bs + [b] <==> x in bs || x == b;
  }

  lemma SumOfSnoc(bs: seq<Booking>, b: Booking, days: set<string>, models: set<string>)
    ensures Sum(bs + [b], days, models)
            == if Picks(b, days, models) then Sum(bs, days, models).Add(b.tokens) else Sum(bs, days, models)
    ensures Count(bs + [b], days, models) == Count(bs, days, models) + if Picks(b, days, models) then 1 else 0
  {
    assert (bs + [b])[..|bs|] == bs;
  }

  /** A key without bookings totals nothing. */
  lemma {:induction false} NothingBooked(bs: seq<Booking>, days: set<string>, models: set<string>)
    requires forall b :: b in bs ==> !Picks(b, days, models)
    ensures Sum(bs, days, models) == NO_TOKENS && Count(bs, days, models) == 0
  {
    if bs != [] {
      assert bs[|bs| - 1] in bs;
      NothingBooked(bs[..|bs| - 1], days, models);
    }
  }

  lemma ModelStep(bs: seq<Booking>, b: Booking, m: string)
    ensures ModelTotals(bs + [b], m)
            == if m == b.model then ModelAgg(ModelTotals(bs, m).tokens.Add(b.tokens), ModelTotals(bs, m).reqs + 1)
               else ModelTotals(bs, m)
    ensures m !in Models(bs) ==> ModelTotals(bs, m) == ModelAgg(NO_TOKENS, 0)
  {
    hide Sum, Count;
    SetsOfSnoc(bs, b);
    SumOfSnoc(bs, b, Days(bs + [b]), {m});
    SumWider(bs, Days(bs), {m}, Days(bs + [b]), {m});
    if m !in Models(bs) {
      NothingBooked(bs, Days(bs), {m});
    }
  }

  lemma ByModelStep(bs: seq<Booking>, b: Booking, d: string)
    ensures var was := ByModel(bs, d);
            ByModel(bs + [b], d)
            == if d == b.day then was[b.model := Get(was, b.model).Add(b.tokens)] else was
  {
    hide Sum, Count;
    SetsOfSnoc(bs, b);
    forall m
      ensures Sum(bs + [b], {d}, {m}) == if d == b.day && m == b.model then Sum(bs, {d}, {m}).Add(b.tokens)
                                         else Sum(bs, {d}, {m})
      ensures m !in ModelsOn(bs, d) ==> Sum(bs, {d}, {m}) == NO_TOKENS
    {
      SumOfSnoc(bs, b, {d}, {m});
      if m !in ModelsOn(bs, d) {
        NothingBooked(bs, {d}, {m});
      }
    }
  }

  lemma DayStep(bs: seq<Booking>, b: Booking, d: string)
    ensures var was := DayTotals(bs, d);
            DayTotals(bs + [b], d)
            == if d == b.day then
                 DayAgg(was.tokens.Add(b.tokens), was.reqs + 1,
                        was.byModel[b.model := Get(was.byModel, b.model).Add(b.tokens)])
               else was
    ensures d !in Days(bs) ==> DayTotals(bs, d) == DayAgg(NO_TOKENS, 0, map[])
  {
    hide Sum, Count;
    SetsOfSnoc(bs, b);
    SumOfSnoc(bs, b, {d}, Models(bs + [b]));
    SumWider(bs, {d}, Models(bs), {d}, Models(bs + [b]));
    if d !in Days(bs) {
      NothingBooked(bs, {d}, Models(bs));
      assert ModelsOn(bs, d) == {};
    }
    ByModelStep(bs, b, d);
  }

  lemma BookKeepsTotals(bs: seq<Booking>, b: Booking, models: map<string, Tokens>, reqs: map<string, int>,
                        dayTokens: map<string, Tokens>, dayReqs: map<string, int>,
                        dayModels: map<string, map<string, Tokens>>)
    requires Totalled(bs, models, reqs, dayTokens, dayReqs, dayModels)
    ensures var byModel := if b.day in dayModels then dayModels[b.day] else map[];
            Totalled(bs + [b], models[b.model := Get(models, b.model).Add(b.tokens)],
                     reqs[b.model := GetReqs(reqs, b.model) + 1],
                     dayTokens[b.day := Get(dayTokens, b.day).Add(b.tokens)],
                     dayReqs[b.day := GetReqs(dayReqs, b.day) + 1],
                     dayModels[b.day := byModel[b.model := Get(byModel, b.model).Add(b.tokens)]])
  {
    hide ModelTotals, DayTotals, Models, Days, ModelsOn;
    SetsOfSnoc(bs, b);
    forall m
      ensures ModelTotals(bs + [b], m)
              == if m == b.model then ModelAgg(ModelTotals(bs, m).tokens.Add(b.tokens), ModelTotals(bs, m).reqs + 1)
                 else ModelTotals(bs, m)
      ensures m !in Models(bs) ==> ModelTotals(bs, m) == ModelAgg(NO_TOKENS, 0)
    {
      ModelStep(bs, b, m);
    }
    forall d
      ensures var was := DayTotals(bs, d);
              DayTotals(bs + [b], d)
              == if d == b.day then
                   DayAgg(was.tokens.Add(b.tokens), was.reqs + 1,
                           was.byModel[b.model := Get(was.byModel, b.model).Add(b.tokens)])
                 else was
      ensures d !in Days(bs) ==> DayTotals(bs, d) == DayAgg(NO_TOKENS, 0, map[])
    {
      DayStep(bs, b, d);
    }
  }

  lemma LineStep(c: Carry, lines: seq<Line>, i: nat, bs: seq<Booking>)
    requires i < |lines|
    ensures CarryAfter(c, lines[i..]) == CarryAfter(Carried(c, lines[i]), lines[i + 1..])
    ensures bs + Bookings(c, lines[i..])
            == (if IsCount(lines[i]) then bs + [Booked(c, lines[i])] else bs)
               + Bookings(Carried(c, lines[i]), lines[i + 1..])
  {
    assert lines[i..][1..] == lines[i + 1..];
  }

  lemma NoLinesLeft(c: Carry, rest: seq<Line>)
    requires rest == []
    ensures CarryAfter(c, rest) == c && Bookings(c, rest) == []
  {
  }

  lemma NothingTotalled()
    ensures Totalled([], map[], map[], map[], map[], map[])
  {
  }

  lemma TotalledIsResult(bs: seq<Booking>, models: map<string, Tokens>, reqs: map<string, int>,
                         dayTokens: map<string, Tokens>, dayReqs: map<string, int>,
                         dayModels: map<string, map<string, Tokens>>)
    requires Totalled(bs, models, reqs, dayTokens, dayReqs, dayModels)
    ensures models.Keys == reqs.Keys && dayTokens.Keys == dayReqs.Keys == dayModels.Keys
    ensures Gather(models, reqs, dayTokens, dayReqs, dayModels) == ResultOf(bs)
  {
    hide ModelTotals, DayTotals, Models, Days;
    var r := Gather(models, reqs, dayTokens, dayReqs, dayModels);
    assert r.models == ResultOf(bs).models;
    assert r.days == ResultOf(bs).days;
  }

  /** The line loop of a scan, from the carry the file was left with. */
  method ScanLines(c: Carry, lines: seq<Line>) returns (result: FileResult, carry: Carry)
    ensures result == ResultOf(Bookings(c, lines))
    ensures carry == CarryAfter(c, lines)
  {
    hide Totalled, Models, Days, ModelsOn, ModelTotals, DayTotals, Bookings, CarryAfter, ResultOf, Get, GetReqs;
    var models: map<string, Tokens>, reqs: map<string, int> := map[], map[];
    var dayTokens: map<string, Tokens>, dayReqs: map<string, int> := map[], map[];
    var dayModels: map<string, map<string, Tokens>> := map[];
    var currentModel, currentDay := c.model, c.day;
    ghost var bs: seq<Booking> := [];
    NothingTotalled();
    assert lines[0..] == lines;
    for i := 0 to |lines|
      invariant bs + Bookings(Carry(currentModel, currentDay), lines[i..]) == Bookings(c, lines)
      invariant CarryAfter(Carry(currentModel, currentDay), lines[i..]) == CarryAfter(c, lines)
      invariant Totalled(bs, models, reqs, dayTokens, dayReqs, dayModels)
    {
      LineStep(Carry(currentModel, currentDay), lines, i, bs);
      var line := lines[i];
      if line.Garbled? {
        continue;
      }
      if line.kind == "turn_context" {
        if line.model != "" {
          currentModel := line.model;
        }
        currentDay := line.day;
        continue;
      }
      if line.kind != "event_msg" {
        continue;
      }
      if line.payloadKind == "turn_context" {
        if line.model != "" {
          currentModel := line.model;
        }
        currentDay := line.day;
        continue;
      }
      if line.payloadKind == "thread_settings_applied" {
        if line.settingsModel != "" {
          currentModel := line.settingsModel;
        }
        if currentDay == "" {
          currentDay := line.day;
        }
        continue;
      }
      if line.payloadKind != "token_count" {
        continue;
      }
      var model := line.infoModel;
      if model == "unknown" || model == "" {
        model := currentModel;
      }
      if model == "" || model == "unknown" {
        model := UNKNOWN;
      }
      var tokens := Tokens(line.input, line.output + line.reasoning, line.cached, 0);
      var day := currentDay;
      if day == "" {
        day := line.day;
      }
      ghost var b := Booking(model, day, tokens);
      BookKeepsTotals(bs, b, models, reqs, dayTokens, dayReqs, dayModels);
      models := models[model := Get(models, model).Add(tokens)];
      reqs := reqs[model := GetReqs(reqs, model) + 1];
      dayTokens := dayTokens[day := Get(dayTokens, day).Add(tokens)];
      dayReqs := dayReqs[day := GetReqs(dayReqs, day) + 1];
      var byModel := if day in dayModels then dayModels[day] else map[];
      dayModels := dayModels[day := byModel[model := Get(byModel, model).Add(tokens)]];
      bs := bs + [b];
    }
    carry := Carry(currentModel, currentDay);
    NoLinesLeft(carry, lines[|lines|..]);
    TotalledIsResult(bs, models, reqs, dayTokens, dayReqs, dayModels);
    result := Gather(models, reqs, dayTokens, dayReqs, dayModels);
    assert bs + [] == bs;
  }
}
