/** The incremental scan of a transcript: cached results, resumed reads, and when they agree with reading it whole. */
module StatsResume {
  import opened Bytes
  import opened StatsFold

  // --- merging aggregates ---

  function MergedByModel(a: map<string, Tokens>, b: map<string, Tokens>): map<string, Tokens>
  {
    map m | m in a.Keys + b.Keys :: Get(a, m).Add(Get(b, m))
  }

  function MergedDay(a: DayAgg, b: DayAgg): DayAgg
  {
    DayAgg(a.tokens.Add(b.tokens), a.reqs + b.reqs, MergedByModel(a.byModel, b.byModel))
  }

  function ModelOr(models: map<string, ModelAgg>, m: string): ModelAgg
  {
    if m in models then models[m] else ModelAgg(NO_TOKENS, 0)
  }

  function DayOr(days: map<string, DayAgg>, d: string): DayAgg
  {
    if d in days then days[d] else DayAgg(NO_TOKENS, 0, map[])
  }

  function MergedModel(a: ModelAgg, b: ModelAgg): ModelAgg
  {
    ModelAgg(a.tokens.Add(b.tokens), a.reqs + b.reqs)
  }

  /** a with the entries of b for those keys added. */
  function PlusModels(a: map<string, ModelAgg>, b: map<string, ModelAgg>, keys: set<string>): map<string, ModelAgg>
    requires keys <= b.Keys
  {
    map m | m in a.Keys + keys :: if m in keys then MergedModel(ModelOr(a, m), b[m]) else a[m]
  }

  function PlusDays(a: map<string, DayAgg>, b: map<string, DayAgg>, keys: set<string>): map<string, DayAgg>
    requires keys <= b.Keys
  {
    map d | d in a.Keys + keys :: if d in keys then MergedDay(DayOr(a, d), b[d]) else a[d]
  }

  function Merged(a: FileResult, b: FileResult): FileResult
  {
    FileResult(PlusModels(a.models, b.models, b.models.Keys), PlusDays(a.days, b.days, b.days.Keys))
  }

  function Joined(tokens: map<string, Tokens>, reqs: map<string, int>): map<string, ModelAgg>
    requires tokens.Keys == reqs.Keys
  {
    map m | m in tokens :: ModelAgg(tokens[m], reqs[m])
  }

  const NOTHING := FileResult(map[], map[])

  predicate Enumerates(order: seq<string>, keys: set<string>)
  {
    && (forall m :: m in order ==> m in keys) && (forall m :: m in keys ==> m in order)
    && (forall i, j :: 0 <= i < j < |order| ==> order[i] != order[j])
  }

  lemma PlusNoModels(a: map<string, ModelAgg>, b: map<string, ModelAgg>)
    ensures PlusModels(a, b, {}) == a && PlusModels(a, b, b.Keys - b.Keys) == a
  {
  }

  lemma PlusOneModel(a: map<string, ModelAgg>, b: map<string, ModelAgg>, keys: set<string>, m: string)
    requires keys <= b.Keys && m in b && m !in keys
    ensures PlusModels(a, b, keys + {m})
            == PlusModels(a, b, keys)[m := MergedModel(ModelOr(PlusModels(a, b, keys), m), b[m])]
  {
  }

  lemma PlusNoDays(a: map<string, DayAgg>, b: map<string, DayAgg>)
    ensures PlusDays(a, b, {}) == a && PlusDays(a, b, b.Keys - b.Keys) == a
  {
  }

  lemma PlusOneDay(a: map<string, DayAgg>, b: map<string, DayAgg>, keys: set<string>, d: string)
    requires keys <= b.Keys && d in b && d !in keys
    ensures PlusDays(a, b, keys + {d}) == PlusDays(a, b, keys)[d := MergedDay(DayOr(PlusDays(a, b, keys), d), b[d])]
  {
    hide MergedDay;
  }

  lemma JoinedPut(tokens: map<string, Tokens>, reqs: map<string, int>, m: string, r: ModelAgg)
    requires tokens.Keys == reqs.Keys
    ensures Joined(tokens[m := Get(tokens, m).Add(r.tokens)], reqs[m := GetReqs(reqs, m) + r.reqs])
            == Joined(tokens, reqs)[m := MergedModel(ModelOr(Joined(tokens, reqs), m), r)]
  {
  }

  lemma EnumeratesOneMore(order: seq<string>, keys: set<string>, m: string)
    requires Enumerates(order, keys)
    ensures Enumerates(if m in keys then order else order + [m], keys + {m})
  {
    if m in keys {
      assert keys + {m} == keys;
    }
  }

  /** a with the entries of b for those keys added. */
  function PlusTokens(a: map<string, Tokens>, b: map<string, Tokens>, keys: set<string>): map<string, Tokens>
    requires keys <= b.Keys
  {
    map m | m in a.Keys + keys :: if m in keys then Get(a, m).Add(b[m]) else a[m]
  }

  lemma PlusNoTokens(a: map<string, Tokens>, b: map<string, Tokens>)
    ensures PlusTokens(a, b, b.Keys - b.Keys) == a
    ensures PlusTokens(a, b, b.Keys) == MergedByModel(a, b)
  {
  }

  lemma PlusOneTokens(a: map<string, Tokens>, b: map<string, Tokens>, keys: set<string>, m: string)
    requires keys <= b.Keys && m in b && m !in keys
    ensures PlusTokens(a, b, keys + {m}) == PlusTokens(a, b, keys)[m := Get(PlusTokens(a, b, keys), m).Add(b[m])]
  {
  }

  method AddByModel(a: map<string, Tokens>, b: map<string, Tokens>) returns (r: map<string, Tokens>)
    ensures r == MergedByModel(a, b)
  {
    hide MergedByModel, PlusTokens, Get;
    r := a;
    var rest := b.Keys;
    PlusNoTokens(a, b);
    while rest != {}
      invariant rest <= b.Keys && r == PlusTokens(a, b, b.Keys - rest)
    {
      var m :| m in rest;
      ghost var merged := b.Keys - rest;
      PlusOneTokens(a, b, merged, m);
      r := r[m := Get(r, m).Add(b[m])];
      rest := rest - {m};
      assert b.Keys - rest == merged + {m};
    }
    assert b.Keys - rest == b.Keys;
  }

  /** The source-level aggregates a walk over the files fills. */
  class Aggregates {
    var modelAgg: map<string, Tokens>
    var modelReqs: map<string, int>
    var modelOrder: seq<string>
    var dayAgg: map<string, DayAgg>

    predicate Valid()
      reads this
    {
      modelAgg.Keys == modelReqs.Keys && Enumerates(modelOrder, modelAgg.Keys)
    }

    function View(): FileResult
      requires Valid()
      reads this
    {
      FileResult(Joined(modelAgg, modelReqs), dayAgg)
    }

    constructor ()
      ensures Valid() && View() == NOTHING
    {
      modelAgg, modelReqs, modelOrder, dayAgg := map[], map[], [], map[];
    }

    /** Adds one file's result. The maps are walked in any order. */
    method Merge(r: FileResult)
      requires Valid()
      modifies this
      ensures Valid() && View() == Merged(old(View()), r)
    {
      MergeModels(r);
      MergeDays(r);
    }

    method MergeModels(r: FileResult)
      requires Valid()
      modifies this`modelAgg, this`modelReqs, this`modelOrder
      ensures Valid() && Joined(modelAgg, modelReqs) == PlusModels(old(View()).models, r.models, r.models.Keys)
    {
      hide Joined, PlusModels, Enumerates;
      ghost var was := View().models;
      PlusNoModels(was, r.models);
      var rest := r.models.Keys;
      while rest != {}
        invariant Valid() && rest <= r.models.Keys
        invariant Joined(modelAgg, modelReqs) == PlusModels(was, r.models, r.models.Keys - rest)
      {
        var m :| m in rest;
        ghost var merged, known := r.models.Keys - rest, modelAgg.Keys;
        JoinedPut(modelAgg, modelReqs, m, r.models[m]);
        PlusOneModel(was, r.models, merged, m);
        EnumeratesOneMore(modelOrder, modelAgg.Keys, m);
        if m !in modelAgg {
          modelOrder := modelOrder + [m];
        }
        modelAgg := modelAgg[m := Get(modelAgg, m).Add(r.models[m].tokens)];
        modelReqs := modelReqs[m := GetReqs(modelReqs, m) + r.models[m].reqs];
        rest := rest - {m};
        assert r.models.Keys - rest == merged + {m} && modelAgg.Keys == known + {m};
      }
      assert r.models.Keys - rest == r.models.Keys;
    }

    method MergeDays(r: FileResult)
      modifies this`dayAgg
      ensures dayAgg == PlusDays(old(dayAgg), r.days, r.days.Keys)
    {
      hide PlusDays, MergedByModel;
      ghost var was := dayAgg;
      PlusNoDays(was, r.days);
      var rest := r.days.Keys;
      while rest != {}
        invariant rest <= r.days.Keys
        invariant dayAgg == PlusDays(was, r.days, r.days.Keys - rest)
      {
        var d :| d in rest;
        ghost var merged := r.days.Keys - rest;
        PlusOneDay(was, r.days, merged, d);
        var day := DayOr(dayAgg, d);
        var byModel := AddByModel(day.byModel, r.days[d].byModel);
        dayAgg := dayAgg[d := DayAgg(day.tokens.Add(r.days[d].tokens), day.reqs + r.days[d].reqs, byModel)];
        rest := rest - {d};
        assert r.days.Keys - rest == merged + {d};
      }
      assert r.days.Keys - rest == r.days.Keys;
    }
  }

  // --- merging is appending ---

  lemma {:induction false} SumAppend(a: seq<Booking>, b: seq<Booking>, days: set<string>, models: set<string>)
    ensures Sum(a + b, days, models) == Sum(a, days, models).Add(Sum(b, days, models))
    ensures Count(a + b, days, models) == Count(a, days, models) + Count(b, days, models)
  {
    hide Picks;
    if b == [] {
      assert a + b == a;
    } else {
      var front, last := b[..|b| - 1], b[|b| - 1];
      SumAppend(a, front, days, models);
      SumOfSnoc(a + front, last, days, models);
      assert a + b == a + front + [last];
    }
  }

  lemma SetsAppend(a: seq<Booking>, b: seq<Booking>)
    ensures Models(a + b) == Models(a) + Models(b) && Days(a + b) == Days(a) + Days(b)
    ensures forall d :: ModelsOn(a + b, d) == ModelsOn(a, d) + ModelsOn(b, d)
  {
    assert forall x :: x in a + b <==> x in a || x in b;
  }

  lemma ModelOrIs(bs: seq<Booking>, m: string)
    ensures ModelOr(ResultOf(bs).models, m) == ModelTotals(bs, m)
  {
    hide Sum, Count;
    if m !in Models(bs) {
      NothingBooked(bs, Days(bs), {m});
    }
  }

  lemma DaysWider(a: seq<Booking>, b: seq<Booking>, m: string)
    ensures Sum(a, Days(a), {m}) == Sum(a, Days(a + b), {m}) && Sum(b, Days(b), {m}) == Sum(b, Days(a + b), {m})
    ensures Count(a, Days(a), {m}) == Count(a, Days(a + b), {m})
    ensures Count(b, Days(b), {m}) == Count(b, Days(a + b), {m})
  {
    SetsAppend(a, b);
    SumWider(a, Days(a), {m}, Days(a + b), {m});
    SumWider(b, Days(b), {m}, Days(a + b), {m});
  }

  lemma MergeModelIs(a: seq<Booking>, b: seq<Booking>, m: string)
    ensures MergedModel(ModelTotals(a, m), ModelTotals(b, m)) == ModelTotals(a + b, m)
  {
    hide Sum, Count, Days;
    SumAppend(a, b, Days(a + b), {m});
    DaysWider(a, b, m);
  }

  lemma GetIsSum(bs: seq<Booking>, d: string, m: string)
    ensures Get(ByModel(bs, d), m) == Sum(bs, {d}, {m})
  {
    hide Sum;
    if m !in ModelsOn(bs, d) {
      NothingBooked(bs, {d}, {m});
    }
  }

  lemma DayOrIs(bs: seq<Booking>, d: string)
    ensures DayOr(ResultOf(bs).days, d) == DayTotals(bs, d)
  {
    hide Sum, Count;
    if d !in Days(bs) {
      NothingBooked(bs, {d}, Models(bs));
      assert ModelsOn(bs, d) == {};
      assert ByModel(bs, d) == map[];
    }
  }

  lemma MergeByModelIs(a: seq<Booking>, b: seq<Booking>, d: string)
    ensures MergedByModel(ByModel(a, d), ByModel(b, d)) == ByModel(a + b, d)
  {
    hide Sum, ModelsOn, Get;
    SetsAppend(a, b);
    forall m
      ensures Get(ByModel(a, d), m).Add(Get(ByModel(b, d), m)) == Sum(a + b, {d}, {m})
    {
      GetIsSum(a, d, m);
      GetIsSum(b, d, m);
      SumAppend(a, b, {d}, {m});
    }
  }

  lemma ModelsWider(a: seq<Booking>, b: seq<Booking>, d: string)
    ensures Sum(a, {d}, Models(a)) == Sum(a, {d}, Models(a + b)) && Sum(b, {d}, Models(b)) == Sum(b, {d}, Models(a + b))
    ensures Count(a, {d}, Models(a)) == Count(a, {d}, Models(a + b))
    ensures Count(b, {d}, Models(b)) == Count(b, {d}, Models(a + b))
  {
    SetsAppend(a, b);
    SumWider(a, {d}, Models(a), {d}, Models(a + b));
    SumWider(b, {d}, Models(b), {d}, Models(a + b));
  }

  lemma MergeDayIs(a: seq<Booking>, b: seq<Booking>, d: string)
    ensures MergedDay(DayTotals(a, d), DayTotals(b, d)) == DayTotals(a + b, d)
  {
    hide Sum, Count, MergedByModel, ByModel, Models;
    SumAppend(a, b, {d}, Models(a + b));
    ModelsWider(a, b, d);
    MergeByModelIs(a, b, d);
  }

  lemma NotInSecond(a: seq<Booking>, b: seq<Booking>)
    ensures forall m :: m !in Models(b) ==> MergedModel(ModelTotals(a, m), ModelTotals(b, m)) == ModelTotals(a, m)
    ensures forall d :: d !in Days(b) ==> MergedDay(DayTotals(a, d), DayTotals(b, d)) == DayTotals(a, d)
  {
    hide Sum, Count;
    forall m | m !in Models(b)
      ensures MergedModel(ModelTotals(a, m), ModelTotals(b, m)) == ModelTotals(a, m)
    {
      NothingBooked(b, Days(b), {m});
    }
    forall d | d !in Days(b)
      ensures MergedDay(DayTotals(a, d), DayTotals(b, d)) == DayTotals(a, d)
    {
      NothingBooked(b, {d}, Models(b));
      assert ByModel(b, d) == map[];
      assert MergedByModel(ByModel(a, d), map[]) == ByModel(a, d);
    }
  }

  /** Merging the aggregates of two lists of bookings gives the aggregates of both together. */
  lemma MergeIsAppend(a: seq<Booking>, b: seq<Booking>)
    ensures Merged(ResultOf(a), ResultOf(b)) == ResultOf(a + b)
  {
    hide Models, Days, ModelTotals, DayTotals, MergedDay, MergedModel, ModelOr, DayOr;
    SetsAppend(a, b);
    NotInSecond(a, b);
    var merged, whole := Merged(ResultOf(a), ResultOf(b)), ResultOf(a + b);
    forall m
      ensures MergedModel(ModelOr(ResultOf(a).models, m), ModelTotals(b, m)) == ModelTotals(a + b, m)
      ensures MergedModel(ModelTotals(a, m), ModelTotals(b, m)) == ModelTotals(a + b, m)
    {
      ModelOrIs(a, m);
      MergeModelIs(a, b, m);
    }
    forall d
      ensures MergedDay(DayOr(ResultOf(a).days, d), DayTotals(b, d)) == DayTotals(a + b, d)
      ensures MergedDay(DayTotals(a, d), DayTotals(b, d)) == DayTotals(a + b, d)
    {
      DayOrIs(a, d);
      MergeDayIs(a, b, d);
    }
    assert merged.models == whole.models;
    assert merged.days == whole.days;
  }

  // --- the index and the walk over one file ---

  /** What the last scan of a file left behind. */
  datatype FileIndex = FileIndex(size: nat, mtime: int, lines: nat, result: Option<FileResult>, carry: Carry)

  const NEVER := FileIndex(0, 0, 0, None, BLANK)

  /** A file as a walk finds it: all its lines, and those that a read from the indexed size on gives. */
  datatype Visit = Visit(size: nat, mtime: int, whole: seq<Line>, tail: seq<Line>, tooLong: bool)

  predicate Unchanged(fi: FileIndex, v: Visit)
  {
    fi.size == v.size && fi.mtime == v.mtime && fi.result.Some?
  }

  /** The lines a changed file is read from: the appended ones if it grew, else all of them. */
  function LinesRead(fi: FileIndex, v: Visit): seq<Line>
  {
    if fi.size > 0 && v.size > fi.size then v.tail else v.whole
  }

  function FreshResult(fi: FileIndex, v: Visit): FileResult
  {
    ResultOf(Bookings(fi.carry, LinesRead(fi, v)))
  }

  /** What the walk adds to the source for this file. A file with a line too long to read adds nothing. */
  function Contribution(fi: FileIndex, v: Visit): seq<FileResult>
  {
    if Unchanged(fi, v) then [fi.result.value]
    else if v.tooLong then []
    else (if fi.result.Some? then [fi.result.value] else []) + [FreshResult(fi, v)]
  }

  /** The stored result is that of the lines just read, not the merged one. */
  function IndexAfter(fi: FileIndex, v: Visit): FileIndex
  {
    if Unchanged(fi, v) || v.tooLong then fi
    else
      FileIndex(v.size, v.mtime, fi.lines + |LinesRead(fi, v)|, Some(FreshResult(fi, v)),
                CarryAfter(fi.carry, LinesRead(fi, v)))
  }

  function MergedAll(r: FileResult, results: seq<FileResult>): FileResult
  {
    if results == [] then r else Merged(MergedAll(r, results[..|results| - 1]), results[|results| - 1])
  }

  lemma MergedOne(r: FileResult, x: FileResult)
    ensures MergedAll(r, [x]) == Merged(r, x)
  {
    assert [x][..0] == [];
  }

  lemma MergedTwo(r: FileResult, x: FileResult, y: FileResult)
    ensures MergedAll(r, [x] + [y]) == Merged(Merged(r, x), y)
  {
    assert ([x] + [y])[..1] == [x];
    MergedOne(r, x);
  }

  /** A file that could not be read to its end is counted as truncated, and its index entry left alone. */
  method ScanFile(source: Aggregates, fi: FileIndex, v: Visit) returns (after: FileIndex, truncated: bool)
    requires source.Valid()
    modifies source
    ensures source.Valid() && source.View() == MergedAll(old(source.View()), Contribution(fi, v))
    ensures after == IndexAfter(fi, v)
    ensures truncated <==> !Unchanged(fi, v) && v.tooLong
  {
    hide Merged, ResultOf, Bookings, CarryAfter, LinesRead;
    if fi.size == v.size && fi.mtime == v.mtime && fi.result.Some? {
      source.Merge(fi.result.value);
      MergedOne(old(source.View()), fi.result.value);
      return fi, false;
    }
    if v.tooLong {
      return fi, true;
    }
    var result, carry := ScanLines(fi.carry, LinesRead(fi, v));
    if fi.result.Some? {
      source.Merge(fi.result.value);
      source.Merge(result);
      MergedTwo(old(source.View()), fi.result.value, result);
    } else {
      source.Merge(result);
      MergedOne(old(source.View()), result);
    }
    return FileIndex(v.size, v.mtime, fi.lines + |LinesRead(fi, v)|, Some(result), carry), false;
  }

  // --- what a scan reports for the file ---

  function Reported(fi: FileIndex, v: Visit): FileResult
  {
    MergedAll(NOTHING, Contribution(fi, v))
  }

  lemma EmptyResult()
    ensures ResultOf([]) == NOTHING
  {
  }

  lemma MergedNothing(bs: seq<Booking>)
    ensures Merged(NOTHING, ResultOf(bs)) == ResultOf(bs)
  {
    EmptyResult();
    MergeIsAppend([], bs);
    assert [] + bs == bs;
  }

  /** Reading a file once, and then what was appended, is reading it whole: the report and the carry agree. */
  lemma ResumeIsFullRead(a: seq<Line>, b: seq<Line>, first: Visit, second: Visit)
    requires first.whole == a && !first.tooLong && first.size > 0
    requires second.whole == a + b && second.tail == b && !second.tooLong && second.size > first.size
    ensures var fi := IndexAfter(NEVER, first);
            && Reported(fi, second) == Reported(NEVER, second) == ResultOf(Bookings(BLANK, a + b))
            && IndexAfter(fi, second).carry == CarryAfter(BLANK, a + b)
  {
    hide ResultOf, Bookings, CarryAfter, Merged;
    ReadingOn(BLANK, a, b);
    var early, late := Bookings(BLANK, a), Bookings(CarryAfter(BLANK, a), b);
    MergedTwo(NOTHING, ResultOf(early), ResultOf(late));
    MergedNothing(early);
    MergeIsAppend(early, late);
    MergedOne(NOTHING, ResultOf(early + late));
    MergedNothing(early + late);
  }

  // --- longer chains, as the code stores results ---

  /** Of a file read before, a visit that finds the same size and time reports what was stored and reads nothing. Any
      other that can be read adds what it reads to that: what was appended, if the file has grown from a size above 0,
      and else the whole file once more. */
  lemma ReadExactlyWhenChanged(fi: FileIndex, v: Visit, u: Visit)
    requires !v.tooLong
    ensures var after := IndexAfter(fi, v);
            && after.result.Some? && after.size == v.size && after.mtime == v.mtime
            && (u.size == v.size && u.mtime == v.mtime ==>
                  Contribution(after, u) == [after.result.value] && IndexAfter(after, u) == after)
            && (u.size != v.size || u.mtime != v.mtime ==>
                  var lines := if u.size > v.size && v.size > 0 then u.tail else u.whole;
                  var read := ResultOf(Bookings(after.carry, lines));
                  && (u.tooLong ==> Contribution(after, u) == [] && IndexAfter(after, u) == after)
                  && (!u.tooLong ==>
                        && Contribution(after, u) == [after.result.value, read]
                        && IndexAfter(after, u) == FileIndex(u.size, u.mtime, after.lines + |lines|, Some(read),
                                                             CarryAfter(after.carry, lines))))
  {
    hide ResultOf, Bookings, CarryAfter;
  }

  /** The index after reads of early and then, resumed, of late: only late's own result is stored. */
  predicate Tracks(fi: FileIndex, early: seq<Line>, late: seq<Line>)
  {
    && (fi.size > 0 || early + late == []) && fi.carry == CarryAfter(BLANK, early + late)
    && fi.lines == |early + late|
    && fi.result == Some(ResultOf(Bookings(CarryAfter(BLANK, early), late)))
  }

  /** The file as it stands when lines have been appended to those read before. */
  predicate Grown(fi: FileIndex, v: Visit, before: seq<Line>)
  {
    v.size > fi.size && !v.tooLong && v.whole == before + v.tail
  }

  /** An empty file is read again from its start; there too, what is read is what was appended. */
  lemma GrownReads(fi: FileIndex, v: Visit, before: seq<Line>)
    requires Grown(fi, v, before) && (fi.size > 0 || before == [])
    ensures LinesRead(fi, v) == v.tail
  {
    assert [] + v.tail == v.tail;
  }

  lemma FirstReadTracks(v: Visit)
    requires !v.tooLong && (v.size == 0 ==> v.whole == [])
    ensures Tracks(IndexAfter(NEVER, v), [], v.whole)
  {
    assert [] + v.whole == v.whole;
  }

  lemma ResumedReadTracks(fi: FileIndex, early: seq<Line>, late: seq<Line>, v: Visit)
    requires Tracks(fi, early, late) && Grown(fi, v, early + late)
    ensures Tracks(IndexAfter(fi, v), early + late, v.tail)
  {
    GrownReads(fi, v, early + late);
    hide ResultOf, Bookings, CarryAfter, LinesRead;
    ReadingOn(BLANK, early + late, v.tail);
  }

  lemma TrackedReports(fi: FileIndex, early: seq<Line>, late: seq<Line>, v: Visit)
    requires Tracks(fi, early, late)
    ensures Grown(fi, v, early + late) ==>
              Reported(fi, v) == ResultOf(Bookings(CarryAfter(BLANK, early), late + v.tail))
    ensures Unchanged(fi, v) ==> Reported(fi, v) == ResultOf(Bookings(CarryAfter(BLANK, early), late))
  {
    if Grown(fi, v, early + late) {
      GrownReads(fi, v, early + late);
    }
    hide ResultOf, Bookings, CarryAfter, Merged, LinesRead;
    var c := CarryAfter(BLANK, early);
    ReadingOn(BLANK, early, late);
    ReadingOn(c, late, v.tail);
    var last, added := Bookings(c, late), Bookings(CarryAfter(c, late), v.tail);
    MergedOne(NOTHING, ResultOf(last));
    MergedNothing(last);
    MergedTwo(NOTHING, ResultOf(last), ResultOf(added));
    MergeIsAppend(last, added);
  }

  lemma NeverReads(v: Visit)
    requires !v.tooLong
    ensures Contribution(NEVER, v) == [ResultOf(Bookings(BLANK, v.whole))]
  {
    hide ResultOf, Bookings;
  }

  lemma {:induction false} NoBookingsIff(c: Carry, lines: seq<Line>)
    ensures Bookings(c, lines) == [] <==> forall l :: l in lines ==> !IsCount(l)
    decreases |lines|
  {
    hide Booked, Carried, IsCount;
    if lines != [] {
      NoBookingsIff(Carried(c, lines[0]), lines[1..]);
      assert lines == [lines[0]] + lines[1..];
    }
  }

  lemma FirstIsCounted(x: seq<Booking>)
    requires x != []
    ensures ModelTotals(x, x[0].model).reqs >= 1
  {
    var days, models := Days(x), {x[0].model};
    assert x[0] in x;
    SumAppend([x[0]], x[1..], days, models);
    assert x == [x[0]] + x[1..];
    assert [x[0]][..0] == [];
    assert Count([x[0]], days, models) == 1;
  }

  /** Bookings in front leave a trace in the request counts. */
  lemma NothingExtraIff(x: seq<Booking>, y: seq<Booking>)
    ensures ResultOf(y) == ResultOf(x + y) <==> x == []
  {
    if x == [] {
      assert x + y == y;
    } else {
      var m := x[0].model;
      hide ResultOf, ModelTotals;
      ModelOrIs(y, m);
      ModelOrIs(x + y, m);
      MergeModelIs(x, y, m);
      FirstIsCounted(x);
      assert MergedModel(ModelTotals(x, m), ModelTotals(y, m)).reqs == ModelTotals(x, m).reqs + ModelTotals(y, m).reqs;
    }
  }

  lemma TrackedAgreesIff(fi: FileIndex, early: seq<Line>, late: seq<Line>, v: Visit)
    requires Tracks(fi, early, late)
    requires Grown(fi, v, early + late) || (Unchanged(fi, v) && v.whole == early + late && !v.tooLong)
    ensures Reported(fi, v) == Reported(NEVER, v) <==> forall l :: l in early ==> !IsCount(l)
  {
    hide ResultOf, Bookings, CarryAfter, Merged, Tracks, IsCount;
    TrackedReports(fi, early, late, v);
    var rest := if Grown(fi, v, early + late) then late + v.tail else late;
    assert v.whole == early + rest;
    ReadingOn(BLANK, early, rest);
    var x, y := Bookings(BLANK, early), Bookings(CarryAfter(BLANK, early), rest);
    MergedOne(NOTHING, ResultOf(x + y));
    MergedNothing(x + y);
    NeverReads(v);
    NothingExtraIff(x, y);
    NoBookingsIff(BLANK, early);
  }

  // --- every chain of visits to a file that only grows ---

  /** The index after the visits to a file, from before it was ever read. */
  function IndexAfterAll(visits: seq<Visit>): FileIndex
  {
    if visits == [] then NEVER else IndexAfter(IndexAfterAll(visits[..|visits| - 1]), visits[|visits| - 1])
  }

  /** The stretches of lines the visits have read: all lines at first, later those appended since. */
  function Stretches(visits: seq<Visit>): seq<seq<Line>>
  {
    if visits == [] then []
    else
      var front, last := visits[..|visits| - 1], visits[|visits| - 1];
      if Unchanged(IndexAfterAll(front), last) || last.tooLong then Stretches(front)
      else Stretches(front) + [if Stretches(front) == [] then last.whole else last.tail]
  }

  function Flat(stretches: seq<seq<Line>>): seq<Line>
  {
    if stretches == [] then [] else Flat(stretches[..|stretches| - 1]) + stretches[|stretches| - 1]
  }

  /** The visit finds a file that only grew by whole lines since it was last read: unchanged, longer, or holding a line
      that is too long to read. */
  predicate Appends(before: seq<Visit>, v: Visit)
  {
    var fi, lines := IndexAfterAll(before), Flat(Stretches(before));
    && (v.size == 0 ==> v.whole == [])
    && (Unchanged(fi, v) ==> v.whole == lines)
    && (!Unchanged(fi, v) && !v.tooLong && Stretches(before) != [] ==> v.size > fi.size && v.whole == lines + v.tail)
  }

  predicate Appending(visits: seq<Visit>)
  {
    visits == [] || (Appending(visits[..|visits| - 1]) && Appends(visits[..|visits| - 1], visits[|visits| - 1]))
  }

  /** What the index no longer tells: everything read before the last stretch. */
  function Forgotten(visits: seq<Visit>): seq<Line>
  {
    var s := Stretches(visits);
    if s == [] then [] else Flat(s[..|s| - 1])
  }

  function LastRead(visits: seq<Visit>): seq<Line>
  {
    var s := Stretches(visits);
    if s == [] then [] else s[|s| - 1]
  }

  lemma FlatSnoc(stretches: seq<seq<Line>>, last: seq<Line>)
    ensures Flat(stretches + [last]) == Flat(stretches) + last
  {
    assert (stretches + [last])[..|stretches|] == stretches;
  }

  lemma FlatOne(lines: seq<Line>)
    ensures Flat([lines]) == lines
  {
    assert [lines][..0] == [];
  }

  lemma ReadSoFar(visits: seq<Visit>)
    ensures Flat(Stretches(visits)) == Forgotten(visits) + LastRead(visits)
  {
    hide Stretches;
  }

  lemma StretchesStep(front: seq<Visit>, v: Visit)
    requires !Unchanged(IndexAfterAll(front), v) && !v.tooLong
    ensures Forgotten(front + [v]) == Flat(Stretches(front))
    ensures LastRead(front + [v]) == if Stretches(front) == [] then v.whole else v.tail
  {
    assert (front + [v])[..|front|] == front;
    var added := if Stretches(front) == [] then v.whole else v.tail;
    assert (Stretches(front) + [added])[..|Stretches(front)|] == Stretches(front);
    hide Stretches, IndexAfterAll, Flat;
  }

  lemma IndexStep(front: seq<Visit>, v: Visit)
    ensures IndexAfterAll(front + [v]) == IndexAfter(IndexAfterAll(front), v)
    ensures Unchanged(IndexAfterAll(front), v) || v.tooLong ==>
              Stretches(front + [v]) == Stretches(front) && IndexAfterAll(front + [v]) == IndexAfterAll(front)
    ensures !Unchanged(IndexAfterAll(front), v) && !v.tooLong ==> Stretches(front + [v]) != []
  {
    assert (front + [v])[..|front|] == front;
    hide FreshResult, CarryAfter, LinesRead;
  }

  /** The index after any such chain holds the result of the last stretch read and the carry of all of them. */
  lemma {:induction false} ChainTracks(visits: seq<Visit>)
    requires Appending(visits)
    ensures if Stretches(visits) == [] then IndexAfterAll(visits) == NEVER
            else Tracks(IndexAfterAll(visits), Forgotten(visits), LastRead(visits))
  {
    if visits != [] {
      var front, last := visits[..|visits| - 1], visits[|visits| - 1];
      assert visits == front + [last];
      ChainTracks(front);
      ReadSoFar(front);
      IndexStep(front, last);
      if Unchanged(IndexAfterAll(front), last) || last.tooLong {
        hide Tracks, IndexAfterAll, Stretches, IndexAfter;
      } else {
        StretchesStep(front, last);
        hide Tracks, Forgotten, LastRead, IndexAfterAll, Stretches, IndexAfter, Unchanged;
        if Stretches(front) == [] {
          FirstReadTracks(last);
        } else {
          ResumedReadTracks(IndexAfterAll(front), Forgotten(front), LastRead(front), last);
        }
      }
    }
  }

  /** What the next visit reports, however long the chain: the last two stretches if the file grew, only the last one if
      it did not, and nothing if a line is too long. */
  lemma ChainReports(visits: seq<Visit>, v: Visit)
    requires Appending(visits) && Appends(visits, v) && Stretches(visits) != []
    ensures Reported(IndexAfterAll(visits), v)
            == if Unchanged(IndexAfterAll(visits), v)
               then ResultOf(Bookings(CarryAfter(BLANK, Forgotten(visits)), LastRead(visits)))
               else if v.tooLong then NOTHING
               else ResultOf(Bookings(CarryAfter(BLANK, Forgotten(visits)), LastRead(visits) + v.tail))
  {
    ChainTracks(visits);
    ReadSoFar(visits);
    hide IndexAfterAll, Stretches, Forgotten, LastRead, ResultOf, Bookings, CarryAfter, Merged, Flat, Tracks;
    TrackedReports(IndexAfterAll(visits), Forgotten(visits), LastRead(visits), v);
  }

  /** Exactly when a chain of visits agrees with reading the file whole: no token_count line among those forgotten. */
  lemma ChainAgreesIff(visits: seq<Visit>, v: Visit)
    requires Appending(visits) && Appends(visits, v) && !v.tooLong
    ensures Reported(IndexAfterAll(visits), v) == Reported(NEVER, v)
            <==> forall l :: l in Forgotten(visits) ==> !IsCount(l)
  {
    ChainTracks(visits);
    ReadSoFar(visits);
    if Stretches(visits) != [] {
      hide IndexAfterAll, Stretches, Forgotten, LastRead, ResultOf, Bookings, CarryAfter, Merged, Flat, Tracks, IsCount,
           Reported;
      TrackedAgreesIff(IndexAfterAll(visits), Forgotten(visits), LastRead(visits), v);
    }
  }

  // --- the step that would make every chain agree ---

  /** Storing what the file contributed, instead of what was just read. */
  function MergingIndex(fi: FileIndex, v: Visit): FileIndex
  {
    if Unchanged(fi, v) || v.tooLong then fi
    else
      var added := FreshResult(fi, v);
      FileIndex(v.size, v.mtime, fi.lines + |LinesRead(fi, v)|,
                Some(if fi.result.Some? then Merged(fi.result.value, added) else added),
                CarryAfter(fi.carry, LinesRead(fi, v)))
  }

  predicate Whole(fi: FileIndex, lines: seq<Line>)
  {
    && (fi.size > 0 || lines == []) && fi.lines == |lines|
    && fi.result == Some(ResultOf(Bookings(BLANK, lines)))
    && fi.carry == CarryAfter(BLANK, lines)
  }

  lemma FirstReadIsWhole(v: Visit)
    requires !v.tooLong && (v.size == 0 ==> v.whole == [])
    ensures Whole(MergingIndex(NEVER, v), v.whole)
  {
  }

  lemma MergingStep(fi: FileIndex, lines: seq<Line>, v: Visit)
    requires Whole(fi, lines) && Grown(fi, v, lines)
    ensures Whole(MergingIndex(fi, v), v.whole)
    ensures Reported(fi, v) == Reported(NEVER, v)
  {
    GrownReads(fi, v, lines);
    hide ResultOf, Bookings, CarryAfter, Merged, LinesRead;
    ReadingOn(BLANK, lines, v.tail);
    var early, late := Bookings(BLANK, lines), Bookings(CarryAfter(BLANK, lines), v.tail);
    MergeIsAppend(early, late);
    MergedTwo(NOTHING, ResultOf(early), ResultOf(late));
    MergedNothing(early);
    MergedOne(NOTHING, ResultOf(early + late));
    MergedNothing(early + late);
    NeverReads(v);
  }

  function MergingAfterAll(visits: seq<Visit>): FileIndex
  {
    if visits == [] then NEVER else MergingIndex(MergingAfterAll(visits[..|visits| - 1]), visits[|visits| - 1])
  }

  /** Both steps remember the same size and time. */
  lemma {:induction false} SameMarks(visits: seq<Visit>)
    ensures var a, b := MergingAfterAll(visits), IndexAfterAll(visits);
            a.size == b.size && a.mtime == b.mtime && (a.result.Some? <==> b.result.Some?)
  {
    if visits != [] {
      SameMarks(visits[..|visits| - 1]);
      hide FreshResult, CarryAfter, Merged, LinesRead;
    }
  }

  lemma WholeReports(fi: FileIndex, v: Visit)
    requires Whole(fi, v.whole) && Unchanged(fi, v) && !v.tooLong
    ensures Reported(fi, v) == Reported(NEVER, v)
  {
    NeverReads(v);
    hide ResultOf, Bookings, CarryAfter, Merged;
  }

  lemma {:induction false} MergingIsWhole(visits: seq<Visit>)
    requires Appending(visits)
    ensures if Stretches(visits) == [] then MergingAfterAll(visits) == NEVER
            else Whole(MergingAfterAll(visits), Flat(Stretches(visits)))
  {
    if visits != [] {
      var front, last := visits[..|visits| - 1], visits[|visits| - 1];
      assert visits == front + [last];
      MergingIsWhole(front);
      SameMarks(front);
      if !Unchanged(IndexAfterAll(front), last) && !last.tooLong {
        hide Whole, FreshResult, Reported;
        if Stretches(front) == [] {
          FlatOne(last.whole);
          FirstReadIsWhole(last);
        } else {
          FlatSnoc(Stretches(front), last.tail);
          MergingStep(MergingAfterAll(front), Flat(Stretches(front)), last);
        }
      }
    }
  }

  /** With that step, every visit of every chain reports the whole file. */
  lemma MergingKeepsWhole(visits: seq<Visit>, v: Visit)
    requires Appending(visits) && Appends(visits, v) && !v.tooLong
    ensures Reported(MergingAfterAll(visits), v) == Reported(NEVER, v)
  {
    MergingIsWhole(visits);
    SameMarks(visits);
    hide IndexAfterAll, MergingAfterAll, Stretches, Whole, Reported, Flat;
    if Stretches(visits) != [] {
      var fi, lines := MergingAfterAll(visits), Flat(Stretches(visits));
      if Unchanged(fi, v) {
        WholeReports(fi, v);
      } else {
        MergingStep(fi, lines, v);
      }
    }
  }

  const TURN := Line("event_msg", "token_count", "", "", "gpt-5.5", 1, 0, 0, 0, "2026-09-11")

  lemma SizeAfter(fi: FileIndex, v: Visit)
    requires !v.tooLong
    ensures IndexAfter(fi, v).size == v.size
  {
  }

  /** One booked turn, then two appended reads of one turn each: the report misses the first turn. */
  lemma TwoResumesLoseTheFirst()
    ensures var second := IndexAfter(IndexAfter(NEVER, Visit(1, 0, [TURN], [], false)),
                                     Visit(2, 0, [TURN, TURN], [TURN], false));
            var third := Visit(3, 0, [TURN, TURN, TURN], [TURN], false);
            Reported(second, third) != Reported(NEVER, third)
  {
    assert IsCount(TURN);
    hide ResultOf, Bookings, CarryAfter, Merged, Reported, IndexAfter, Tracks, IsCount, TURN;
    var first, next := Visit(1, 0, [TURN], [], false), Visit(2, 0, [TURN, TURN], [TURN], false);
    var third := Visit(3, 0, [TURN, TURN, TURN], [TURN], false);
    var fi := IndexAfter(NEVER, first);
    FirstReadTracks(first);
    SizeAfter(NEVER, first);
    assert [] + [TURN] == [TURN] && [TURN] + [TURN] == [TURN, TURN];
    ResumedReadTracks(fi, [], [TURN], next);
    SizeAfter(fi, next);
    assert [TURN] + [TURN] + [TURN] == [TURN, TURN, TURN];
    TrackedAgreesIff(IndexAfter(fi, next), [TURN], [TURN], third);
    assert TURN in [TURN];
  }
}
