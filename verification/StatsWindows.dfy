/** Today, this month and the models table: windows over the days, and how they add up. */
module StatsWindows {
  import opened Bytes
  import opened StatsFold
  import opened StatsResume
  import opened StatsTotals

  type Prices = string -> Option<Price>

  /** What tokens of a model cost; an unpriced model costs nothing. */
  function CostAt(price: Prices, model: string, t: Tokens): real
  {
    if price(model).Some? then price(model).value.Cost(t) else 0.0
  }

  function CostOf(price: Prices, bs: seq<Booking>, days: set<string>, models: set<string>): real
  {
    if bs == [] then 0.0
    else
      var last := bs[|bs| - 1];
      CostOf(price, bs[..|bs| - 1], days, models)
      + if Picks(last, days, models) then CostAt(price, last.model, last.tokens) else 0.0
  }

  lemma Scaled(a: int, b: int, p: real)
    ensures (a + b) as real * p == a as real * p + b as real * p
  {
    assert (a + b) as real == a as real + b as real;
  }

  lemma Averaged(a: real, b: real, c: real, d: real, e: real, f: real, g: real, h: real)
    ensures (a + e + (b + f) + (c + g) + (d + h)) / 1000000.0
            == (a + b + c + d) / 1000000.0 + (e + f + g + h) / 1000000.0
  {
  }

  lemma CostParts(p: Price, s: Tokens, t: Tokens)
    ensures p.Cost(s.Add(t)) == p.Cost(s) + p.Cost(t)
  {
    Scaled(s.input, t.input, p.input);
    Scaled(s.output, t.output, p.output);
    Scaled(s.cacheRead, t.cacheRead, p.cacheRead);
    Scaled(s.cacheWrite, t.cacheWrite, p.cacheWrite);
    Averaged(s.input as real * p.input, s.output as real * p.output, s.cacheRead as real * p.cacheRead,
             s.cacheWrite as real * p.cacheWrite, t.input as real * p.input, t.output as real * p.output,
             t.cacheRead as real * p.cacheRead, t.cacheWrite as real * p.cacheWrite);
  }

  /** A price is what a million tokens of each kind cost. */
  lemma UnitCosts(p: Price)
    ensures p.Cost(Tokens(1_000_000, 0, 0, 0)) == p.input && p.Cost(Tokens(0, 1_000_000, 0, 0)) == p.output
    ensures p.Cost(Tokens(0, 0, 1_000_000, 0)) == p.cacheRead && p.Cost(Tokens(0, 0, 0, 1_000_000)) == p.cacheWrite
  {
  }

  lemma NothingCostsNothing(p: Price)
    ensures p.Cost(NO_TOKENS) == 0.0
  {
  }

  /** A price is linear in the tokens. */
  lemma CostAdds(price: Prices, model: string, s: Tokens, t: Tokens)
    ensures CostAt(price, model, s.Add(t)) == CostAt(price, model, s) + CostAt(price, model, t)
    ensures CostAt(price, model, NO_TOKENS) == 0.0
  {
    if price(model).Some? {
      CostParts(price(model).value, s, t);
      NothingCostsNothing(price(model).value);
      hide Price.Cost;
    }
  }

  /** The bookings of one model cost what their sum costs. */
  lemma {:induction false} CostOfModel(price: Prices, bs: seq<Booking>, days: set<string>, m: string)
    ensures CostOf(price, bs, days, {m}) == CostAt(price, m, Sum(bs, days, {m}))
  {
    hide CostAt, Tokens.Add;
    CostAdds(price, m, NO_TOKENS, NO_TOKENS);
    if bs != [] {
      var front, last := bs[..|bs| - 1], bs[|bs| - 1];
      CostOfModel(price, front, days, m);
      CostAdds(price, m, Sum(front, days, {m}), last.tokens);
    }
  }

  lemma CostOfSnoc(price: Prices, front: seq<Booking>, last: Booking, days: set<string>, models: set<string>)
    ensures CostOf(price, front + [last], days, models)
            == CostOf(price, front, days, models)
               + if Picks(last, days, models) then CostAt(price, last.model, last.tokens) else 0.0
  {
    assert (front + [last])[..|front|] == front;
  }

  lemma {:induction false} CostSplits(price: Prices, bs: seq<Booking>, d: set<string>, m: set<string>, d1: set<string>,
                                      m1: set<string>, d2: set<string>, m2: set<string>)
    requires Splits(bs, d, m, d1, m1, d2, m2)
    ensures CostOf(price, bs, d, m) == CostOf(price, bs, d1, m1) + CostOf(price, bs, d2, m2)
  {
    hide Picks, Splits, CostAt;
    if bs != [] {
      hide CostOf;
      var front, last := bs[..|bs| - 1], bs[|bs| - 1];
      assert bs == front + [last];
      SplitsFront(front, last, d, m, d1, m1, d2, m2);
      CostSplits(price, front, d, m, d1, m1, d2, m2);
      CostOfSnoc(price, front, last, d, m);
      CostOfSnoc(price, front, last, d1, m1);
      CostOfSnoc(price, front, last, d2, m2);
    }
  }

  lemma CostMoreModels(price: Prices, bs: seq<Booking>, days: set<string>, models: set<string>, m: string)
    requires m !in models
    ensures CostOf(price, bs, days, models + {m}) == CostOf(price, bs, days, models)
               + CostAt(price, m, Sum(bs, days, {m}))
  {
    CostOfModel(price, bs, days, m);
    hide CostOf, CostAt, Sum;
    CostSplits(price, bs, days, models + {m}, days, models, days, {m});
  }

  lemma CostMoreDays(price: Prices, bs: seq<Booking>, days: set<string>, models: set<string>, d: string)
    requires d !in days
    ensures CostOf(price, bs, days + {d}, models) == CostOf(price, bs, days, models) + CostOf(price, bs, {d}, models)
  {
    hide CostOf;
    CostSplits(price, bs, days + {d}, models, days, models, {d}, models);
  }

  lemma {:induction false} CostNoKeys(price: Prices, bs: seq<Booking>, days: set<string>, models: set<string>)
    requires days == {} || models == {}
    ensures CostOf(price, bs, days, models) == 0.0
  {
    if bs != [] {
      CostNoKeys(price, bs[..|bs| - 1], days, models);
    }
  }

  lemma {:induction false} CostWider(price: Prices, bs: seq<Booking>, days: set<string>, models: set<string>,
                                     moreModels: set<string>)
    requires forall b :: b in bs ==> (Picks(b, days, models) <==> Picks(b, days, moreModels))
    ensures CostOf(price, bs, days, models) == CostOf(price, bs, days, moreModels)
  {
    if bs != [] {
      assert bs[|bs| - 1] in bs;
      CostWider(price, bs[..|bs| - 1], days, models, moreModels);
    }
  }

  // --- windows ---

  datatype Window = Window(tokens: Tokens, requests: int, cost: real, byModel: map<string, Tokens>)

  const EMPTY := Window(NO_TOKENS, 0, 0.0, map[])

  function ModelsIn(bs: seq<Booking>, days: set<string>): set<string>
  {
    set b | b in bs && b.day in days :: b.model
  }

  function ByModelIn(bs: seq<Booking>, days: set<string>): map<string, Tokens>
  {
    map m | m in ModelsIn(bs, days) :: Sum(bs, days, {m})
  }

  /** The bookings of some days, added up. */
  function WindowOf(price: Prices, bs: seq<Booking>, days: set<string>): Window
  {
    Window(Sum(bs, days, Models(bs)), Count(bs, days, Models(bs)), CostOf(price, bs, days, Models(bs)),
           ByModelIn(bs, days))
  }

  lemma DayModels(price: Prices, bs: seq<Booking>, d: string)
    ensures CostOf(price, bs, {d}, DayTotals(bs, d).byModel.Keys) == CostOf(price, bs, {d}, Models(bs))
  {
    hide CostOf;
    CostWider(price, bs, {d}, DayTotals(bs, d).byModel.Keys, Models(bs));
  }

  /** Adds one day to a window, as the pass over the days does. */
  method AddDay(w: Window, day: DayAgg, price: Prices, ghost bs: seq<Booking>, ghost d: string) returns (r: Window)
    requires day == DayTotals(bs, d)
    ensures r == Window(w.tokens.Add(day.tokens), w.requests + day.reqs,
                        w.cost + CostOf(price, bs, {d}, Models(bs)), MergedByModel(w.byModel, day.byModel))
  {
    hide CostOf, CostAt, Sum, Count, MergedByModel, PlusTokens, Get, Models, ModelsOn;
    var cost, byModel := w.cost, w.byModel;
    var rest := day.byModel.Keys;
    CostNoKeys(price, bs, {d}, {});
    assert day.byModel.Keys - rest == {};
    PlusNoTokens(w.byModel, day.byModel);
    while rest != {}
      invariant rest <= day.byModel.Keys
      invariant cost == w.cost + CostOf(price, bs, {d}, day.byModel.Keys - rest)
      invariant byModel == PlusTokens(w.byModel, day.byModel, day.byModel.Keys - rest)
    {
      var m :| m in rest;
      ghost var added := day.byModel.Keys - rest;
      CostMoreModels(price, bs, {d}, added, m);
      PlusOneTokens(w.byModel, day.byModel, added, m);
      cost := cost + CostAt(price, m, day.byModel[m]);
      byModel := byModel[m := Get(byModel, m).Add(day.byModel[m])];
      rest := rest - {m};
      assert day.byModel.Keys - rest == added + {m};
    }
    assert day.byModel.Keys - rest == day.byModel.Keys;
    DayModels(price, bs, d);
    return Window(w.tokens.Add(day.tokens), w.requests + day.reqs, cost, byModel);
  }

  /** The days of a table that start at or after a boundary. */
  function Since(days: set<string>, start: string -> int, boundary: int): set<string>
  {
    set d | d in days && start(d) >= boundary
  }

  lemma WindowNone(price: Prices, bs: seq<Booking>)
    ensures WindowOf(price, bs, {}) == EMPTY
  {
    SumNoKeys(bs, {}, Models(bs));
    CostNoKeys(price, bs, {}, Models(bs));
    assert ModelsIn(bs, {}) == {};
    hide Sum, Count, CostOf;
    assert ByModelIn(bs, {}) == map[];
  }

  lemma GetByModelIn(bs: seq<Booking>, days: set<string>, m: string)
    ensures Get(ByModelIn(bs, days), m) == Sum(bs, days, {m})
  {
    hide Sum;
    if m !in ModelsIn(bs, days) {
      NothingBooked(bs, days, {m});
    }
  }

  lemma ModelsInMore(bs: seq<Booking>, days: set<string>, d: string)
    ensures ModelsIn(bs, days + {d}) == ModelsIn(bs, days) + ModelsOn(bs, d)
  {
  }

  lemma ByModelMoreDays(bs: seq<Booking>, days: set<string>, d: string)
    requires d !in days
    ensures ByModelIn(bs, days + {d}) == MergedByModel(ByModelIn(bs, days), ByModel(bs, d))
  {
    hide Sum, ModelsIn, ModelsOn, Get;
    ModelsInMore(bs, days, d);
    forall m
      ensures Sum(bs, days + {d}, {m}) == Get(ByModelIn(bs, days), m).Add(Get(ByModel(bs, d), m))
    {
      SumMoreDays(bs, days, {m}, d);
      GetByModelIn(bs, days, m);
      GetIsSum(bs, d, m);
    }
  }

  lemma WindowMoreDays(price: Prices, bs: seq<Booking>, days: set<string>, d: string)
    requires d !in days
    ensures var w, day := WindowOf(price, bs, days), DayTotals(bs, d);
            WindowOf(price, bs, days + {d})
            == Window(w.tokens.Add(day.tokens), w.requests + day.reqs, w.cost + CostOf(price, bs, {d}, Models(bs)),
                      MergedByModel(w.byModel, day.byModel))
  {
    hide Sum, Count, CostOf, Models, ByModelIn, ByModel, MergedByModel;
    SumMoreDays(bs, days, Models(bs), d);
    CostMoreDays(price, bs, days, Models(bs), d);
    ByModelMoreDays(bs, days, d);
  }

  lemma SinceNone(days: set<string>, start: string -> int, boundary: int)
    ensures Since(days - days, start, boundary) == {}
  {
  }

  lemma SinceMore(days: set<string>, start: string -> int, boundary: int, d: string)
    requires d !in days
    ensures Since(days + {d}, start, boundary)
            == if start(d) >= boundary then Since(days, start, boundary) + {d} else Since(days, start, boundary)
    ensures d !in Since(days, start, boundary)
  {
  }

  /** The pass over the days, in any order: both windows are the totals of their days. */
  method Windows(days: map<string, DayAgg>, start: string -> int, todayStart: int, monthStart: int, price: Prices,
                 ghost bs: seq<Booking>)
    returns (today: Window, month: Window)
    requires days == ResultOf(bs).days
    ensures today == WindowOf(price, bs, Since(Days(bs), start, todayStart))
    ensures month == WindowOf(price, bs, Since(Days(bs), start, monthStart))
  {
    hide WindowOf, DayTotals, Since, MergedByModel, CostOf, Models;
    today, month := EMPTY, EMPTY;
    var rest := days.Keys;
    WindowNone(price, bs);
    SinceNone(days.Keys, start, todayStart);
    SinceNone(days.Keys, start, monthStart);
    while rest != {}
      invariant rest <= days.Keys
      invariant today == WindowOf(price, bs, Since(days.Keys - rest, start, todayStart))
      invariant month == WindowOf(price, bs, Since(days.Keys - rest, start, monthStart))
    {
      var d :| d in rest;
      ghost var seen := days.Keys - rest;
      SinceMore(seen, start, todayStart, d);
      SinceMore(seen, start, monthStart, d);
      if start(d) >= todayStart {
        WindowMoreDays(price, bs, Since(seen, start, todayStart), d);
        today := AddDay(today, days[d], price, bs, d);
      }
      if start(d) >= monthStart {
        WindowMoreDays(price, bs, Since(seen, start, monthStart), d);
        month := AddDay(month, days[d], price, bs, d);
      }
      rest := rest - {d};
      assert days.Keys - rest == seen + {d};
    }
    assert days.Keys - rest == Days(bs);
  }

  // --- the models table ---

  datatype ModelRow = ModelRow(model: string, tokens: Tokens, requests: int, today: Tokens, month: Tokens,
                               cost: real, costMonth: real)

  function RowOf(m: string, models: map<string, ModelAgg>, today: map<string, Tokens>, month: map<string, Tokens>,
                 price: Prices): ModelRow
  {
    ModelRow(m, ModelOr(models, m).tokens, ModelOr(models, m).reqs, Get(today, m), Get(month, m),
             CostAt(price, m, ModelOr(models, m).tokens), CostAt(price, m, Get(month, m)))
  }

  /** One row for each model in order of discovery, without the synthetic one. */
  function Rows(order: seq<string>, models: map<string, ModelAgg>, today: map<string, Tokens>,
                month: map<string, Tokens>, price: Prices): seq<ModelRow>
  {
    if order == [] then []
    else
      Rows(order[..|order| - 1], models, today, month, price)
      + (var m := order[|order| - 1]; if m == SYNTHETIC then [] else [RowOf(m, models, today, month, price)])
  }

  /** The models without a price that hold tokens in that table. */
  function Unpriced(order: seq<string>, price: Prices, tokens: map<string, Tokens>): set<string>
  {
    set m | m in order && m != SYNTHETIC && price(m).None? && Get(tokens, m) != NO_TOKENS
  }

  /** The models without a price, whatever they hold. */
  function EverUnpriced(order: seq<string>, price: Prices): set<string>
  {
    set m | m in order && m != SYNTHETIC && price(m).None?
  }

  lemma NoRows(models: map<string, ModelAgg>, today: map<string, Tokens>, month: map<string, Tokens>, price: Prices)
    ensures Rows([], models, today, month, price) == []
    ensures EverUnpriced([], price) == Unpriced([], price, today) == Unpriced([], price, month) == {}
  {
  }

  lemma RowsMore(order: seq<string>, m: string, models: map<string, ModelAgg>, today: map<string, Tokens>,
                 month: map<string, Tokens>, price: Prices)
    ensures Rows(order + [m], models, today, month, price)
            == Rows(order, models, today, month, price)
               + if m == SYNTHETIC then [] else [RowOf(m, models, today, month, price)]
  {
    hide RowOf;
    assert (order + [m])[..|order|] == order;
  }

  lemma OrderIsKeys(order: seq<string>, keys: set<string>, i: nat)
    requires Enumerates(order, keys) && i < |order|
    ensures order[i] in keys
  {
  }

  lemma UnpricedMore(order: seq<string>, price: Prices, tokens: map<string, Tokens>, m: string)
    ensures Unpriced(order + [m], price, tokens)
            == if m != SYNTHETIC && price(m).None? && Get(tokens, m) != NO_TOKENS
               then Unpriced(order, price, tokens) + {m} else Unpriced(order, price, tokens)
  {
  }

  lemma EverUnpricedMore(order: seq<string>, price: Prices, m: string)
    ensures EverUnpriced(order + [m], price)
            == if m != SYNTHETIC && price(m).None? then EverUnpriced(order, price) + {m} else EverUnpriced(order, price)
  {
  }

  method BuildModelsList(order: seq<string>, modelAgg: map<string, Tokens>, modelReqs: map<string, int>,
                         today: map<string, Tokens>, month: map<string, Tokens>, price: Prices)
    returns (rows: seq<ModelRow>, unpriced: set<string>, unpricedToday: set<string>, unpricedMonth: set<string>)
    requires modelAgg.Keys == modelReqs.Keys && Enumerates(order, modelAgg.Keys)
    ensures rows == Rows(order, Joined(modelAgg, modelReqs), today, month, price)
    ensures unpriced == EverUnpriced(order, price)
    ensures unpricedToday == Unpriced(order, price, today) && unpricedMonth == Unpriced(order, price, month)
  {
    hide CostAt, Unpriced, EverUnpriced, Rows, Get, Enumerates;
    rows, unpriced, unpricedToday, unpricedMonth := [], {}, {}, {};
    ghost var models := Joined(modelAgg, modelReqs);
    NoRows(models, today, month, price);
    assert order[..0] == [];
    for i := 0 to |order|
      invariant rows == Rows(order[..i], models, today, month, price)
      invariant unpriced == EverUnpriced(order[..i], price)
      invariant unpricedToday == Unpriced(order[..i], price, today)
      invariant unpricedMonth == Unpriced(order[..i], price, month)
    {
      var m := order[i];
      EverUnpricedMore(order[..i], price, m);
      UnpricedMore(order[..i], price, today, m);
      UnpricedMore(order[..i], price, month, m);
      RowsMore(order[..i], m, models, today, month, price);
      assert order[..i + 1] == order[..i] + [m];
      OrderIsKeys(order, modelAgg.Keys, i);
      if m == SYNTHETIC {
        continue;
      }
      if price(m).None? {
        unpriced := unpriced + {m};
        if Get(today, m) != NO_TOKENS {
          unpricedToday := unpricedToday + {m};
        }
        if Get(month, m) != NO_TOKENS {
          unpricedMonth := unpricedMonth + {m};
        }
      }
      rows := rows + [ModelRow(m, modelAgg[m], modelReqs[m], Get(today, m), Get(month, m),
                               CostAt(price, m, modelAgg[m]), CostAt(price, m, Get(month, m)))];
    }
    assert order[..|order|] == order;
  }

  function MonthTokens(rows: seq<ModelRow>): Tokens
  {
    if rows == [] then NO_TOKENS else MonthTokens(rows[..|rows| - 1]).Add(rows[|rows| - 1].month)
  }

  function MonthCosts(rows: seq<ModelRow>): real
  {
    if rows == [] then 0.0 else MonthCosts(rows[..|rows| - 1]) + rows[|rows| - 1].costMonth
  }

  /** The rows of a table, by the window their month column shows. */
  function RowsIn(price: Prices, bs: seq<Booking>, days: set<string>, today: map<string, Tokens>, order: seq<string>)
    : seq<ModelRow>
  {
    Rows(order, ResultOf(bs).models, today, ByModelIn(bs, days), price)
  }

  lemma RowsSnoc(rows: seq<ModelRow>, row: ModelRow)
    ensures MonthTokens(rows + [row]) == MonthTokens(rows).Add(row.month)
    ensures MonthCosts(rows + [row]) == MonthCosts(rows) + row.costMonth
  {
    assert (rows + [row])[..|rows|] == rows;
  }

  lemma RowsInMore(price: Prices, bs: seq<Booking>, days: set<string>, today: map<string, Tokens>, front: seq<string>,
                   last: string)
    ensures var rows, more := RowsIn(price, bs, days, today, front), RowsIn(price, bs, days, today, front + [last]);
            if last == SYNTHETIC then more == rows
            else MonthTokens(more) == MonthTokens(rows).Add(Sum(bs, days, {last}))
                 && MonthCosts(more) == MonthCosts(rows) + CostAt(price, last, Sum(bs, days, {last}))
  {
    hide ResultOf, Sum, CostAt, ByModelIn, Rows, Get, SYNTHETIC, MonthTokens, MonthCosts;
    RowsMore(front, last, ResultOf(bs).models, today, ByModelIn(bs, days), price);
    GetByModelIn(bs, days, last);
    RowsSnoc(RowsIn(price, bs, days, today, front),
             RowOf(last, ResultOf(bs).models, today, ByModelIn(bs, days), price));
  }

  function SyntheticShare(bs: seq<Booking>, days: set<string>, order: seq<string>): Tokens
  {
    if SYNTHETIC in order then Sum(bs, days, {SYNTHETIC}) else NO_TOKENS
  }

  lemma SyntheticOnce(front: seq<string>, last: string)
    requires last !in Elements(front)
    ensures SYNTHETIC in front + [last] <==> SYNTHETIC in front || last == SYNTHETIC
    ensures last == SYNTHETIC ==> SYNTHETIC !in front
  {
  }

  lemma {:induction false} CostsAddUp(price: Prices, bs: seq<Booking>, days: set<string>, today: map<string, Tokens>,
                                      order: seq<string>)
    requires StatsTotals.Distinct(order)
    ensures MonthCosts(RowsIn(price, bs, days, today, order))
            + CostAt(price, SYNTHETIC, SyntheticShare(bs, days, order))
            == CostOf(price, bs, days, Elements(order))
  {
    CostAdds(price, SYNTHETIC, NO_TOKENS, NO_TOKENS);
    if order == [] {
      NoElements();
      CostNoKeys(price, bs, days, Elements(order));
    } else {
      hide Sum, CostOf, CostAt, RowsIn, Elements, SYNTHETIC, MonthCosts;
      var front, last := order[..|order| - 1], order[|order| - 1];
      Snoc(order);
      CostsAddUp(price, bs, days, today, front);
      assert order == front + [last];
      CostMoreModels(price, bs, days, Elements(front), last);
      RowsInMore(price, bs, days, today, front, last);
      SyntheticOnce(front, last);
    }
  }

  lemma NoRowsIn(price: Prices, bs: seq<Booking>, days: set<string>, today: map<string, Tokens>)
    ensures MonthTokens(RowsIn(price, bs, days, today, [])) == NO_TOKENS
  {
  }

  lemma AddMoves(x: Tokens, y: Tokens, t: Tokens)
    ensures x.Add(y).Add(t) == x.Add(t).Add(y) && x.Add(NO_TOKENS) == x
  {
  }

  lemma {:induction false} TokensAddUp(price: Prices, bs: seq<Booking>, days: set<string>, today: map<string, Tokens>,
                                       order: seq<string>)
    requires StatsTotals.Distinct(order)
    ensures Sum(bs, days, Elements(order))
            == MonthTokens(RowsIn(price, bs, days, today, order)).Add(SyntheticShare(bs, days, order))
  {
    hide Sum, CostAt, RowsIn, Elements, SYNTHETIC, MonthTokens, MonthCosts, Tokens.Add;
    if order == [] {
      NoElements();
      SumNoKeys(bs, days, Elements(order));
      AddNothing();
      NoRowsIn(price, bs, days, today);
    } else {
      var front, last := order[..|order| - 1], order[|order| - 1];
      Snoc(order);
      TokensAddUp(price, bs, days, today, front);
      assert order == front + [last];
      SumMoreModels(bs, days, Elements(front), last);
      RowsInMore(price, bs, days, today, front, last);
      SyntheticOnce(front, last);
      var rows := MonthTokens(RowsIn(price, bs, days, today, front));
      AddMoves(rows, SyntheticShare(bs, days, front), Sum(bs, days, {last}));
    }
  }

  /** The month's tokens and cost are those of the table's rows and of the synthetic share the table leaves out.
      Without a price for that one, the month's cost is exactly the rows' costs. */
  lemma MonthIsItsModels(price: Prices, bs: seq<Booking>, days: set<string>, today: map<string, Tokens>,
                         order: seq<string>)
    requires Enumerates(order, Models(bs))
    ensures var month, share := WindowOf(price, bs, days), Sum(bs, days, {SYNTHETIC});
            var rows := Rows(order, ResultOf(bs).models, today, month.byModel, price);
            && month.tokens == MonthTokens(rows).Add(share)
            && month.cost == MonthCosts(rows) + CostAt(price, SYNTHETIC, share)
            && (price(SYNTHETIC) == None ==> month.cost == MonthCosts(rows))
  {
    assert Elements(order) == Models(bs);
    hide ResultOf, CostOf, ByModelIn, Rows, Elements, Sum, Count, SYNTHETIC, Price.Cost;
    CostsAddUp(price, bs, days, today, order);
    TokensAddUp(price, bs, days, today, order);
    if SYNTHETIC !in order {
      NothingBooked(bs, days, {SYNTHETIC});
    }
  }

  predicate AtMost(a: Tokens, b: Tokens)
  {
    a.input <= b.input && a.output <= b.output && a.cacheRead <= b.cacheRead && a.cacheWrite <= b.cacheWrite
  }

  lemma {:induction false} FewerDays(bs: seq<Booking>, fewer: set<string>, more: set<string>, models: set<string>)
    requires fewer <= more && forall b :: b in bs ==> AtMost(NO_TOKENS, b.tokens)
    ensures AtMost(Sum(bs, fewer, models), Sum(bs, more, models))
    ensures Count(bs, fewer, models) <= Count(bs, more, models)
  {
    if bs != [] {
      assert bs[|bs| - 1] in bs;
      FewerDays(bs[..|bs| - 1], fewer, more, models);
    }
  }

  ghost predicate PricesNotNegative(price: Prices)
  {
    forall m :: price(m).Some? ==> NotNegative(price(m).value)
  }

  lemma ProductNotNegative(n: int, rate: real)
    requires n >= 0 && rate >= 0.0
    ensures n as real * rate >= 0.0
  {
  }

  lemma CostNotNegative(price: Prices, model: string, t: Tokens)
    requires PricesNotNegative(price) && AtMost(NO_TOKENS, t)
    ensures CostAt(price, model, t) >= 0.0
  {
    if price(model).Some? {
      var p := price(model).value;
      assert NotNegative(p);
      ProductNotNegative(t.input, p.input);
      ProductNotNegative(t.output, p.output);
      ProductNotNegative(t.cacheRead, p.cacheRead);
      ProductNotNegative(t.cacheWrite, p.cacheWrite);
    }
  }

  lemma {:induction false} FewerDaysCost(price: Prices, bs: seq<Booking>, fewer: set<string>, more: set<string>,
                                         models: set<string>)
    requires PricesNotNegative(price) && fewer <= more && forall b :: b in bs ==> AtMost(NO_TOKENS, b.tokens)
    ensures CostOf(price, bs, fewer, models) <= CostOf(price, bs, more, models)
  {
    hide CostAt, PricesNotNegative, AtMost;
    if bs != [] {
      var last := bs[|bs| - 1];
      assert last in bs;
      FewerDaysCost(price, bs[..|bs| - 1], fewer, more, models);
      CostNotNegative(price, last.model, last.tokens);
    }
  }

  /** With token counts that are not negative, today is never more than the month: not in any kind of token, not in
      requests, and not in cost unless some price is negative. */
  lemma TodayWithinMonth(price: Prices, bs: seq<Booking>, start: string -> int, todayStart: int, monthStart: int)
    requires monthStart <= todayStart && forall b :: b in bs ==> AtMost(NO_TOKENS, b.tokens)
    ensures var today := WindowOf(price, bs, Since(Days(bs), start, todayStart));
            var month := WindowOf(price, bs, Since(Days(bs), start, monthStart));
            && AtMost(today.tokens, month.tokens) && today.requests <= month.requests
            && (PricesNotNegative(price) ==> today.cost <= month.cost)
  {
    var today, month := Since(Days(bs), start, todayStart), Since(Days(bs), start, monthStart);
    FewerDays(bs, today, month, Models(bs));
    if PricesNotNegative(price) {
      FewerDaysCost(price, bs, today, month, Models(bs));
    }
  }

  /** A scan's prices: those it was given, then the embedded table. */
  function PriceOf(given: map<string, Price>): Prices
  {
    m => if m in given then Some(given[m]) else LookupPrice(m)
  }

  /** The embedded table has no negative rate: unless a given price has one, today never costs more than the month. */
  lemma TodayCostsWithinMonth(given: map<string, Price>, bs: seq<Booking>, start: string -> int, todayStart: int,
                              monthStart: int)
    requires monthStart <= todayStart && forall b :: b in bs ==> AtMost(NO_TOKENS, b.tokens)
    requires forall m :: m in given ==> NotNegative(given[m])
    ensures WindowOf(PriceOf(given), bs, Since(Days(bs), start, todayStart)).cost
            <= WindowOf(PriceOf(given), bs, Since(Days(bs), start, monthStart)).cost
  {
    forall m
      ensures PriceOf(given)(m).Some? ==> NotNegative(PriceOf(given)(m).value)
    {
      TableIsNotNegative(m);
    }
    hide PriceOf, LookupPrice, NotNegative, WindowOf, Since;
    TodayWithinMonth(PriceOf(given), bs, start, todayStart, monthStart);
  }
}
