/** What the report adds up to: models, days, windows and costs, all from the same bookings. */
module StatsTotals {
  import opened Bytes
  import opened StatsFold
  import opened StatsResume

  /** USD per million tokens. */
  datatype Price = Price(input: real, output: real, cacheRead: real, cacheWrite: real)
  {
    function Cost(t: Tokens): real
    {
      (t.input as real * input + t.output as real * output + t.cacheRead as real * cacheRead
       + t.cacheWrite as real * cacheWrite) / 1000000.0
    }
  }

  /** No token earns money. */
  predicate NotNegative(p: Price)
  {
    p.input >= 0.0 && p.output >= 0.0 && p.cacheRead >= 0.0 && p.cacheWrite >= 0.0
  }

  const SYNTHETIC := "<synthetic>"

  /** The embedded table, in two parts. */
  function ClaudePrice(model: string): Option<Price>
  {
    if model == "claude-fable-5" then Some(Price(10.0, 50.0, 1.0, 12.5))
    else if model == "claude-fable-5-1" then Some(Price(10.0, 50.0, 0.25, 12.5))
    else if model == "claude-opus-5" then Some(Price(5.0, 25.0, 0.5, 6.25))
    else if model == "claude-opus-4-8" then Some(Price(5.0, 25.0, 0.5, 6.25))
    else if model == "claude-sonnet-5" then Some(Price(2.0, 10.0, 0.2, 2.5))
    else if model == "claude-sonnet-4-20250514" then Some(Price(3.0, 15.0, 0.3, 3.75))
    else if model == "claude-sonnet-4-6" then Some(Price(3.0, 15.0, 0.3, 3.75))
    else if model == "claude-opus-4-20250514" then Some(Price(15.0, 75.0, 1.5, 18.75))
    else if model == "claude-3-7-sonnet-20250219" then Some(Price(3.0, 15.0, 0.3, 3.75))
    else if model == "claude-3-5-sonnet-20241022" then Some(Price(3.0, 15.0, 0.3, 3.75))
    else if model == "claude-3-5-haiku-20241022" then Some(Price(0.8, 4.0, 0.08, 1.0))
    else if model == "claude-haiku-4-5-20251001" then Some(Price(1.0, 5.0, 0.1, 1.25))
    else None
  }

  function OtherPrice(model: string): Option<Price>
  {
    if model == "gpt-4.1" then Some(Price(2.0, 8.0, 0.5, 0.0))
    else if model == "gpt-4.1-mini" then Some(Price(0.4, 1.6, 0.1, 0.0))
    else if model == "gpt-4o" then Some(Price(2.5, 10.0, 1.25, 0.0))
    else if model == "gpt-4o-mini" then Some(Price(0.15, 0.6, 0.075, 0.0))
    else if model == "o1" then Some(Price(15.0, 60.0, 7.5, 0.0))
    else if model == "o1-preview" then Some(Price(15.0, 60.0, 7.5, 0.0))
    else if model == "o1-mini" then Some(Price(3.0, 12.0, 1.5, 0.0))
    else if model == "o3" then Some(Price(6.0, 24.0, 1.5, 0.0))
    else if model == "o3-mini" then Some(Price(1.5, 6.0, 0.75, 0.0))
    else if model == "openai/gpt-5.5" then Some(Price(5.0, 30.0, 0.5, 0.0))
    else if model == "openai/gpt-5.6-sol" then Some(Price(4.0, 20.0, 0.4, 5.0))
    else if model == "openai/fugu-ultra" then Some(Price(5.0, 30.0, 0.5, 0.0))
    else if model == "qwen/qwen-3-32b" then Some(Price(0.2, 0.6, 0.0, 0.0))
    else if model == "meta-llama/llama-4-scout" then Some(Price(0.18, 0.55, 0.0, 0.0))
    else None
  }

  function TablePrice(model: string): Option<Price>
  {
    if ClaudePrice(model).Some? then ClaudePrice(model) else OtherPrice(model)
  }

  function Alias(model: string): string
  {
    if model == "opus" then "claude-opus-5"
    else if model == "sonnet" then "claude-sonnet-5"
    else if model == "gpt-5.5" then "openai/gpt-5.5"
    else if model == "gpt-5.6-sol" then "openai/gpt-5.6-sol"
    else if model == "fugu-ultra" then "openai/fugu-ultra"
    else model
  }

  /** A model's price, directly or by alias. */
  function LookupPrice(model: string): Option<Price>
  {
    if TablePrice(model).Some? then TablePrice(model) else TablePrice(Alias(model))
  }

  lemma SyntheticHasNoPrice()
    ensures LookupPrice(SYNTHETIC) == None
  {
    assert SYNTHETIC[0] == '<';
  }

  lemma ClaudeIsNotNegative(model: string)
    ensures ClaudePrice(model).Some? ==> NotNegative(ClaudePrice(model).value)
  {
  }

  lemma OtherIsNotNegative(model: string)
    ensures OtherPrice(model).Some? ==> NotNegative(OtherPrice(model).value)
  {
  }

  lemma PriceIsNotNegative(model: string)
    ensures TablePrice(model).Some? ==> NotNegative(TablePrice(model).value)
  {
    ClaudeIsNotNegative(model);
    OtherIsNotNegative(model);
    hide ClaudePrice, OtherPrice, NotNegative;
  }

  /** The embedded table holds no negative rate. */
  lemma TableIsNotNegative(model: string)
    ensures LookupPrice(model).Some? ==> NotNegative(LookupPrice(model).value)
  {
    PriceIsNotNegative(model);
    PriceIsNotNegative(Alias(model));
    hide TablePrice, Alias, NotNegative;
  }

  /** Reading from the cache is never dearer than input, and input never dearer than output; writing the cache is free
      or no cheaper than input. */
  predicate Ordered(p: Price)
  {
    p.cacheRead <= p.input <= p.output && (p.cacheWrite == 0.0 || p.cacheWrite >= p.input)
  }

  lemma ClaudeIsOrdered(model: string)
    ensures ClaudePrice(model).Some? ==> Ordered(ClaudePrice(model).value)
  {
  }

  lemma OtherIsOrdered(model: string)
    ensures OtherPrice(model).Some? ==> Ordered(OtherPrice(model).value)
  {
  }

  /** The rates of every priced model, under its name or an alias, are in that order. */
  lemma TableIsOrdered(model: string)
    ensures LookupPrice(model).Some? ==> Ordered(LookupPrice(model).value)
  {
    ClaudeIsOrdered(model);
    OtherIsOrdered(model);
    ClaudeIsOrdered(Alias(model));
    OtherIsOrdered(Alias(model));
    hide ClaudePrice, OtherPrice, Alias, Ordered;
  }

  /** Writing the cache of a Claude model costs a quarter more than input, as its pricing says. */
  lemma ClaudeCacheWrites(model: string)
    ensures ClaudePrice(model).Some? ==> ClaudePrice(model).value.cacheWrite == 1.25 * ClaudePrice(model).value.input
  {
  }

  lemma SomePrices()
    ensures ClaudePrice("claude-opus-5") == Some(Price(5.0, 25.0, 0.5, 6.25))
    ensures ClaudePrice("opus") == None && OtherPrice("opus") == None
    ensures ClaudePrice("gpt-4o") == None && OtherPrice("gpt-4o") == Some(Price(2.5, 10.0, 1.25, 0.0))
  {
    assert "claude-fable-5"[7] == 'f' && "claude-fable-5-1"[7] == 'f' && "claude-opus-5"[7] == 'o';
    assert |"opus"| == 4 && "opus"[0] == 'o' && "gpt-4o"[0] == 'g' && |"gpt-4o"| == 6;
  }

  /** A model of either part of the table has its price, and so has one under an alias. */
  lemma PricesAreFound()
    ensures LookupPrice("claude-opus-5") == LookupPrice("opus") == Some(Price(5.0, 25.0, 0.5, 6.25))
    ensures LookupPrice("gpt-4o") == Some(Price(2.5, 10.0, 1.25, 0.0))
  {
    SomePrices();
    hide ClaudePrice, OtherPrice;
  }

  // --- sums over keys ---

  /** A choice of days and models is the disjoint union of two others. */
  predicate Splits(bs: seq<Booking>, d: set<string>, m: set<string>, d1: set<string>, m1: set<string>,
                   d2: set<string>, m2: set<string>)
  {
    forall b :: b in bs ==> if Picks(b, d1, m1) then Picks(b, d, m) && !Picks(b, d2, m2)
                            else Picks(b, d, m) == Picks(b, d2, m2)
  }

  lemma SplitsFront(front: seq<Booking>, last: Booking, d: set<string>, m: set<string>, d1: set<string>,
                    m1: set<string>, d2: set<string>, m2: set<string>)
    requires Splits(front + [last], d, m, d1, m1, d2, m2)
    ensures Splits(front, d, m, d1, m1, d2, m2)
    ensures if Picks(last, d1, m1) then Picks(last, d, m) && !Picks(last, d2, m2)
            else Picks(last, d, m) == Picks(last, d2, m2)
  {
    hide Picks;
    assert forall b :: b in front ==> b in front + [last];
    assert last in front + [last];
  }

  lemma AddEither(y: Tokens, z: Tokens, t: Tokens, p: bool, q: bool)
    requires !(p && q)
    ensures (if p || q then y.Add(z).Add(t) else y.Add(z)) == (if p then y.Add(t) else y).Add(if q then z.Add(t) else z)
  {
  }

  lemma AddNothing()
    ensures NO_TOKENS.Add(NO_TOKENS) == NO_TOKENS
  {
  }

  lemma SumOfNone(days: set<string>, models: set<string>)
    ensures Sum([], days, models) == NO_TOKENS && Count([], days, models) == 0
  {
  }

  lemma {:induction false} SumSplits(bs: seq<Booking>, d: set<string>, m: set<string>, d1: set<string>,
                                     m1: set<string>, d2: set<string>, m2: set<string>)
    requires Splits(bs, d, m, d1, m1, d2, m2)
    ensures Sum(bs, d, m) == Sum(bs, d1, m1).Add(Sum(bs, d2, m2))
    ensures Count(bs, d, m) == Count(bs, d1, m1) + Count(bs, d2, m2)
  {
    hide Picks, Sum, Count, Splits, Tokens.Add;
    if bs == [] {
      SumOfNone(d, m);
      SumOfNone(d1, m1);
      SumOfNone(d2, m2);
      AddNothing();
    } else {
      var front, last := bs[..|bs| - 1], bs[|bs| - 1];
      assert bs == front + [last];
      SplitsFront(front, last, d, m, d1, m1, d2, m2);
      SumSplits(front, d, m, d1, m1, d2, m2);
      SumOfSnoc(front, last, d, m);
      SumOfSnoc(front, last, d1, m1);
      SumOfSnoc(front, last, d2, m2);
      AddEither(Sum(front, d1, m1), Sum(front, d2, m2), last.tokens, Picks(last, d1, m1), Picks(last, d2, m2));
    }
  }

  lemma SumMoreModels(bs: seq<Booking>, days: set<string>, models: set<string>, m: string)
    requires m !in models
    ensures Sum(bs, days, models + {m}) == Sum(bs, days, models).Add(Sum(bs, days, {m}))
    ensures Count(bs, days, models + {m}) == Count(bs, days, models) + Count(bs, days, {m})
  {
    hide Sum, Count;
    SumSplits(bs, days, models + {m}, days, models, days, {m});
  }

  lemma SumMoreDays(bs: seq<Booking>, days: set<string>, models: set<string>, d: string)
    requires d !in days
    ensures Sum(bs, days + {d}, models) == Sum(bs, days, models).Add(Sum(bs, {d}, models))
    ensures Count(bs, days + {d}, models) == Count(bs, days, models) + Count(bs, {d}, models)
  {
    hide Sum, Count;
    SumSplits(bs, days + {d}, models, days, models, {d}, models);
  }

  lemma {:induction false} SumNoKeys(bs: seq<Booking>, days: set<string>, models: set<string>)
    requires days == {} || models == {}
    ensures Sum(bs, days, models) == NO_TOKENS && Count(bs, days, models) == 0
  {
    if bs != [] {
      SumNoKeys(bs[..|bs| - 1], days, models);
    }
  }

  function Elements(order: seq<string>): set<string>
  {
    set m | m in order
  }

  predicate Distinct(order: seq<string>)
  {
    forall i, j :: 0 <= i < j < |order| ==> order[i] != order[j]
  }

  /** The tokens and requests of the models table, added up over its keys in some order. */
  function OverModels(models: map<string, ModelAgg>, order: seq<string>): ModelAgg
  {
    if order == [] then ModelAgg(NO_TOKENS, 0)
    else MergedModel(OverModels(models, order[..|order| - 1]), ModelOr(models, order[|order| - 1]))
  }

  function OverDays(days: map<string, DayAgg>, order: seq<string>): ModelAgg
  {
    if order == [] then ModelAgg(NO_TOKENS, 0)
    else
      var d := DayOr(days, order[|order| - 1]);
      MergedModel(OverDays(days, order[..|order| - 1]), ModelAgg(d.tokens, d.reqs))
  }

  function OverByModel(byModel: map<string, Tokens>, order: seq<string>): Tokens
  {
    if order == [] then NO_TOKENS
    else OverByModel(byModel, order[..|order| - 1]).Add(Get(byModel, order[|order| - 1]))
  }

  function OverDaysByModel(days: map<string, DayAgg>, order: seq<string>, models: seq<string>): Tokens
  {
    if order == [] then NO_TOKENS
    else
      OverDaysByModel(days, order[..|order| - 1], models)
      .Add(OverByModel(DayOr(days, order[|order| - 1]).byModel, models))
  }

  lemma Snoc(order: seq<string>)
    requires order != [] && Distinct(order)
    ensures var front, last := order[..|order| - 1], order[|order| - 1];
            Distinct(front) && last !in Elements(front) && Elements(order) == Elements(front) + {last}
  {
    assert order == order[..|order| - 1] + [order[|order| - 1]];
  }

  lemma NoElements()
    ensures Elements([]) == {}
  {
  }

  lemma {:induction false} OverModelsIs(bs: seq<Booking>, order: seq<string>)
    requires Distinct(order)
    ensures OverModels(ResultOf(bs).models, order)
            == ModelAgg(Sum(bs, Days(bs), Elements(order)), Count(bs, Days(bs), Elements(order)))
  {
    hide ResultOf, Sum, Count, Days, Elements;
    if order == [] {
      NoElements();
      SumNoKeys(bs, Days(bs), Elements(order));
    } else {
      var front, last := order[..|order| - 1], order[|order| - 1];
      Snoc(order);
      OverModelsIs(bs, front);
      SumMoreModels(bs, Days(bs), Elements(front), last);
      ModelOrIs(bs, last);
    }
  }

  lemma {:induction false} OverDaysIs(bs: seq<Booking>, order: seq<string>)
    requires Distinct(order)
    ensures OverDays(ResultOf(bs).days, order)
            == ModelAgg(Sum(bs, Elements(order), Models(bs)), Count(bs, Elements(order), Models(bs)))
  {
    hide ResultOf, Sum, Count, Models, Elements;
    if order == [] {
      NoElements();
      SumNoKeys(bs, Elements(order), Models(bs));
    } else {
      var front, last := order[..|order| - 1], order[|order| - 1];
      Snoc(order);
      OverDaysIs(bs, front);
      SumMoreDays(bs, Elements(front), Models(bs), last);
      DayOrIs(bs, last);
    }
  }

  lemma {:induction false} OverByModelIs(bs: seq<Booking>, d: string, order: seq<string>)
    requires Distinct(order)
    ensures OverByModel(ByModel(bs, d), order) == Sum(bs, {d}, Elements(order))
  {
    hide ByModel, Sum, Elements, Get;
    if order == [] {
      NoElements();
      SumNoKeys(bs, {d}, Elements(order));
    } else {
      var front, last := order[..|order| - 1], order[|order| - 1];
      Snoc(order);
      OverByModelIs(bs, d, front);
      SumMoreModels(bs, {d}, Elements(front), last);
      GetIsSum(bs, d, last);
    }
  }

  lemma {:induction false} OverDaysByModelIs(bs: seq<Booking>, order: seq<string>, models: seq<string>)
    requires Distinct(order) && Distinct(models)
    ensures OverDaysByModel(ResultOf(bs).days, order, models) == Sum(bs, Elements(order), Elements(models))
  {
    hide ResultOf, ByModel, Sum, Elements;
    if order == [] {
      NoElements();
      SumNoKeys(bs, Elements(order), Elements(models));
    } else {
      var front, last := order[..|order| - 1], order[|order| - 1];
      Snoc(order);
      OverDaysByModelIs(bs, front, models);
      SumMoreDays(bs, Elements(front), Elements(models), last);
      DayOrIs(bs, last);
      OverByModelIs(bs, last, models);
    }
  }

  lemma {:induction false} EverythingCounts(bs: seq<Booking>, days: set<string>, models: set<string>)
    requires forall b :: b in bs ==> Picks(b, days, models)
    ensures Count(bs, days, models) == |bs|
  {
    if bs != [] {
      assert bs[|bs| - 1] in bs;
      EverythingCounts(bs[..|bs| - 1], days, models);
    }
  }

  /** Nothing is lost or counted twice: the models, the days and the (day, model) pairs of a result, each added up in
      any order, give the same tokens, and the models and days the same requests, one for each booking. */
  lemma Conservation(bs: seq<Booking>, models: seq<string>, days: seq<string>)
    requires Enumerates(models, Models(bs)) && Enumerates(days, Days(bs))
    ensures OverModels(ResultOf(bs).models, models) == OverDays(ResultOf(bs).days, days)
    ensures OverModels(ResultOf(bs).models, models).tokens == OverDaysByModel(ResultOf(bs).days, days, models)
    ensures OverModels(ResultOf(bs).models, models).reqs == |bs|
  {
    assert Elements(models) == Models(bs) && Elements(days) == Days(bs);
    hide ResultOf, Elements;
    OverModelsIs(bs, models);
    OverDaysIs(bs, days);
    OverDaysByModelIs(bs, days, models);
    EverythingCounts(bs, Days(bs), Models(bs));
  }

  function Results(files: seq<seq<Booking>>): (r: seq<FileResult>)
    ensures |r| == |files|
    ensures forall i :: 0 <= i < |r| ==> r[i] == ResultOf(files[i])
  {
    if files == [] then [] else Results(files[..|files| - 1]) + [ResultOf(files[|files| - 1])]
  }

  function Together(files: seq<seq<Booking>>): seq<Booking>
  {
    if files == [] then [] else Together(files[..|files| - 1]) + files[|files| - 1]
  }

  /** The same after any sequence of merges: the source's aggregates are those of all the files' bookings together. */
  lemma {:induction false} MergesConserve(files: seq<seq<Booking>>)
    ensures MergedAll(NOTHING, Results(files)) == ResultOf(Together(files))
  {
    hide ResultOf, Merged;
    if files == [] {
      EmptyResult();
    } else {
      var front, last := files[..|files| - 1], files[|files| - 1];
      MergesConserve(front);
      MergeIsAppend(Together(front), last);
      assert Results(files)[..|files| - 1] == Results(front);
    }
  }
}
