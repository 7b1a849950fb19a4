/** The device's pages: which rows each one shows, and how the button walks through them. */
module Pages {

  const MAX_LINES := 5
  const MAX_PROVIDERS := 6
  const MAX_ROWS := 6

  type uint8 = n: int | 0 <= n < 256

  datatype Kind = Plan | Credit | Free | Unknown

  datatype Row = Row(title: string, pct: int, text: string, tier: uint8)

  datatype Provider = Provider(kind: Kind, severity: uint8, status: uint8, rows: seq<Row>)

  /** The bounded arrays of the parsed snapshot. */
  predicate Fits(m: seq<Provider>)
  {
    |m| <= MAX_PROVIDERS && forall p :: p in m ==> |p.rows| <= MAX_ROWS
  }

  /** A card line: its row, dimmed when its provider is stale, and marked when warnings are the worst there is. */
  datatype Line = Line(row: Row, dim: bool, warn: bool)

  datatype Page = Help | Card(kind: Kind, lines: seq<Line>)

  /** The order kinds are shown in. */
  function KindAt(k: nat): Kind
    requires k < 3
  {
    if k == 0 then Plan else if k == 1 then Credit else Free
  }

  // --- what there is to show ---

  function WorstSeverity(m: seq<Provider>): uint8
  {
    if m == [] then 0
    else
      var before := WorstSeverity(m[..|m| - 1]);
      if m[|m| - 1].severity > before then m[|m| - 1].severity else before
  }

  function LineOf(p: Provider, row: Row, worst: uint8): Line
  {
    Line(row, 1 <= p.status <= 3, worst == 1 && p.severity == 1)
  }

  function LinesOf(p: Provider, rows: seq<Row>, worst: uint8): (r: seq<Line>)
    ensures |r| == |rows|
    ensures forall i :: 0 <= i < |rows| ==> r[i] == LineOf(p, rows[i], worst)
  {
    if rows == [] then [] else LinesOf(p, rows[..|rows| - 1], worst) + [LineOf(p, rows[|rows| - 1], worst)]
  }

  /** A kind's lines, provider by provider. */
  function KindLines(m: seq<Provider>, kind: Kind, worst: uint8): seq<Line>
  {
    if m == [] then []
    else
      var last := m[|m| - 1];
      KindLines(m[..|m| - 1], kind, worst) + if last.kind == kind then LinesOf(last, last.rows, worst) else []
  }

  function RowCount(m: seq<Provider>, kind: Kind): nat
  {
    |KindLines(m, kind, 0)|
  }

  function PageCountOf(rows: nat): nat
  {
    (rows + MAX_LINES - 1) / MAX_LINES
  }

  function PagesBefore(m: seq<Provider>, k: nat): nat
    requires k <= 3
  {
    if k == 0 then 0 else PagesBefore(m, k - 1) + PageCountOf(RowCount(m, KindAt(k - 1)))
  }

  /** Up to five lines from there on. */
  function Slice(lines: seq<Line>, start: nat): (r: seq<Line>)
    ensures |r| <= MAX_LINES
  {
    if start >= |lines| then []
    else if start + MAX_LINES <= |lines| then lines[start..start + MAX_LINES]
    else lines[start..]
  }

  /** The first kind whose pages reach beyond that number, or 3. */
  function KindOfPage(m: seq<Provider>, page: nat, k: nat): (r: nat)
    requires k <= 3 && page >= PagesBefore(m, k)
    ensures k <= r <= 3 && page >= PagesBefore(m, r)
    ensures r < 3 ==> page < PagesBefore(m, r + 1)
    decreases 3 - k
  {
    if k == 3 || page < PagesBefore(m, k + 1) then k else KindOfPage(m, page, k + 1)
  }

  /** The page a flat number stands for. */
  function PageAt(m: seq<Provider>, page: nat): Page
  {
    var k := KindOfPage(m, page, 0);
    if k == 3 then Help
    else Card(KindAt(k), Slice(KindLines(m, KindAt(k), WorstSeverity(m)), (page - PagesBefore(m, k)) * MAX_LINES))
  }

  // --- counting, in bytes ---

  lemma {:induction false} CountIgnoresWorst(m: seq<Provider>, kind: Kind, worst: uint8)
    ensures |KindLines(m, kind, worst)| == RowCount(m, kind)
  {
    if m != [] {
      CountIgnoresWorst(m[..|m| - 1], kind, worst);
    }
  }

  lemma {:induction false} CountBound(m: seq<Provider>, kind: Kind)
    requires forall p :: p in m ==> |p.rows| <= MAX_ROWS
    ensures RowCount(m, kind) <= MAX_ROWS * |m|
  {
    if m != [] {
      assert m[|m| - 1] in m;
      CountBound(m[..|m| - 1], kind);
    }
  }

  method KindRowCount(m: seq<Provider>, kind: Kind) returns (count: uint8)
    requires Fits(m)
    ensures count == RowCount(m, kind) <= MAX_PROVIDERS * MAX_ROWS
  {
    count := 0;
    for i := 0 to |m|
      invariant count == RowCount(m[..i], kind)
    {
      assert m[..i + 1][..i] == m[..i];
      assert m[i] in m;
      CountBound(m[..i], kind);
      if m[i].kind != kind {
        continue;
      }
      count := (count + |m[i].rows|) % 256;
    }
    assert m[..|m|] == m;
    CountBound(m, kind);
  }

  lemma PagesStep(m: seq<Provider>, k: nat)
    requires k < 3
    ensures PagesBefore(m, k + 1) == PagesBefore(m, k) + PageCountOf(RowCount(m, KindAt(k)))
    ensures PagesBefore(m, 0) == 0
  {
  }

  method KindPageCount(m: seq<Provider>) returns (total: uint8)
    requires Fits(m)
    ensures total == PagesBefore(m, 3) <= 24
  {
    hide PagesBefore, KindAt, RowCount;
    total := 0;
    PagesStep(m, 0);
    for k := 0 to 3
      invariant total == PagesBefore(m, k) <= 8 * k
    {
      PagesStep(m, k);
      var rows := KindRowCount(m, KindAt(k));
      if rows > 0 {
        total := (total + (rows + MAX_LINES - 1) / MAX_LINES) % 256;
      }
    }
  }

  /** One page more than the rows need: the help page. */
  method CountPages(m: seq<Provider>) returns (total: uint8)
    requires Fits(m)
    ensures total == PagesBefore(m, 3) + 1 <= 25
  {
    var pages := KindPageCount(m);
    total := (pages + 1) % 256;
  }

  method ResolvePage(m: seq<Provider>, page: uint8) returns (kind: Kind, start: uint8)
    requires Fits(m)
    ensures var k := KindOfPage(m, page, 0);
            if k == 3 then kind == Plan && start == 0
            else kind == KindAt(k) && start == (page - PagesBefore(m, k)) * MAX_LINES
  {
    hide PagesBefore, KindAt, RowCount;
    var remaining: uint8 := page;
    PagesStep(m, 0);
    for k := 0 to 3
      invariant page == PagesBefore(m, k) + remaining && remaining >= 0
      invariant KindOfPage(m, page, k) == KindOfPage(m, page, 0)
    {
      PagesStep(m, k);
      var rows := KindRowCount(m, KindAt(k));
      if rows == 0 {
        continue;
      }
      var pages := (rows + MAX_LINES - 1) / MAX_LINES;
      if remaining < pages {
        return KindAt(k), remaining * MAX_LINES % 256;
      }
      remaining := remaining - pages;
    }
    return Plan, 0;
  }

  // --- one page ---

  lemma SliceGrows(lines: seq<Line>, l: Line, start: nat)
    ensures Slice(lines + [l], start)
            == if |lines| < start || |Slice(lines, start)| == MAX_LINES then Slice(lines, start)
               else Slice(lines, start) + [l]
  {
    if start <= |lines| < start + MAX_LINES {
      assert (lines + [l])[start..] == lines[start..] + [l];
    }
  }

  lemma SliceFull(lines: seq<Line>, more: seq<Line>, start: nat)
    requires |Slice(lines, start)| == MAX_LINES
    ensures Slice(lines + more, start) == Slice(lines, start)
  {
  }

  lemma {:induction false} KindLinesPrefix(m: seq<Provider>, i: nat, kind: Kind, worst: uint8)
    requires i <= |m|
    ensures exists rest :: KindLines(m, kind, worst) == KindLines(m[..i], kind, worst) + rest
  {
    if i == |m| {
      assert m[..i] == m;
      assert KindLines(m, kind, worst) == KindLines(m, kind, worst) + [];
    } else {
      var front, last := m[..|m| - 1], m[|m| - 1];
      KindLinesPrefix(front, i, kind, worst);
      assert front[..i] == m[..i];
      var rest :| KindLines(front, kind, worst) == KindLines(m[..i], kind, worst) + rest;
      var more := if last.kind == kind then LinesOf(last, last.rows, worst) else [];
      assert KindLines(m, kind, worst) == KindLines(m[..i], kind, worst) + (rest + more);
    }
  }

  lemma SliceEmpty(lines: seq<Line>, start: nat)
    ensures |lines| < start ==> Slice(lines, start) == []
  {
  }

  /** The rows of one provider: skipped up to the page's start, then shown until the page is full. */
  method AddRows(was: seq<Line>, rowsBefore: nat, p: Provider, start: nat, worst: uint8, ghost before: seq<Line>)
    returns (lines: seq<Line>, currentRow: nat)
    requires was == Slice(before, start) && |was| < MAX_LINES && rowsBefore == |before|
    ensures lines == Slice(before + LinesOf(p, p.rows, worst), start)
    ensures |lines| < MAX_LINES ==> currentRow == |before + LinesOf(p, p.rows, worst)|
  {
    hide Slice, LineOf;
    lines, currentRow := was, rowsBefore;
    ghost var all := before + LinesOf(p, p.rows, worst);
    assert all[..|before|] == before;
    for r := 0 to |p.rows|
      invariant lines == Slice(all[..|before| + r], start) && |lines| <= MAX_LINES
      invariant currentRow == |before| + r
    {
      ghost var n := |before| + r;
      assert all[..n + 1] == all[..n] + [all[n]] && all[n] == LineOf(p, p.rows[r], worst);
      SliceGrows(all[..n], all[n], start);
      SliceEmpty(all[..n], start);
      if currentRow < start {
        currentRow := currentRow + 1;
        continue;
      }
      if |lines| >= MAX_LINES {
        SliceFull(all[..n], all[n..], start);
        assert all[..n] + all[n..] == all;
        return;
      }
      lines := lines + [LineOf(p, p.rows[r], worst)];
      currentRow := currentRow + 1;
    }
    assert all[..|before| + |p.rows|] == all;
  }

  method BuildLines(m: seq<Provider>, kind: Kind, start: nat, worst: uint8) returns (lines: seq<Line>)
    ensures lines == Slice(KindLines(m, kind, worst), start)
  {
    lines := [];
    var currentRow := 0;
    var i := 0;
    while i < |m| && |lines| < MAX_LINES
      invariant i <= |m|
      invariant lines == Slice(KindLines(m[..i], kind, worst), start)
      invariant |lines| < MAX_LINES ==> currentRow == |KindLines(m[..i], kind, worst)|
    {
      var p := m[i];
      assert m[..i + 1][..i] == m[..i];
      ghost var before := KindLines(m[..i], kind, worst);
      if p.kind == kind {
        lines, currentRow := AddRows(lines, currentRow, p, start, worst, before);
      }
      i := i + 1;
    }
    KindLinesPrefix(m, i, kind, worst);
    if |lines| == MAX_LINES {
      var rest :| KindLines(m, kind, worst) == KindLines(m[..i], kind, worst) + rest;
      SliceFull(KindLines(m[..i], kind, worst), rest, start);
    } else {
      assert m[..i] == m;
    }
  }

  // --- the main results ---

  lemma {:induction false} PagesRise(m: seq<Provider>, i: nat, j: nat)
    requires i <= j <= 3
    ensures PagesBefore(m, i) <= PagesBefore(m, j)
  {
    if i < j {
      PagesRise(m, i, j - 1);
    }
  }

  /** The pages of the k-th kind are the numbers from PagesBefore(m, k) on. */
  lemma KindOfPageIs(m: seq<Provider>, k: nat, page: nat, from: nat)
    requires k < 3 && PagesBefore(m, k) <= page < PagesBefore(m, k + 1) && from <= k
    requires page >= PagesBefore(m, from)
    ensures KindOfPage(m, page, from) == k
    decreases k - from
  {
    hide PagesBefore;
    if from < k {
      PagesRise(m, from + 1, k);
      KindOfPageIs(m, k, page, from + 1);
    }
  }

  /** The lines of n pages of a kind, one page after the other. */
  function ShownLines(m: seq<Provider>, k: nat, n: nat): seq<Line>
    requires k < 3
  {
    if n == 0 then []
    else
      var page := PageAt(m, PagesBefore(m, k) + n - 1);
      ShownLines(m, k, n - 1) + if page.Card? then page.lines else []
  }

  lemma CardIs(m: seq<Provider>, k: nat, i: nat)
    requires k < 3 && i < PageCountOf(RowCount(m, KindAt(k)))
    ensures PageAt(m, PagesBefore(m, k) + i)
            == Card(KindAt(k), Slice(KindLines(m, KindAt(k), WorstSeverity(m)), i * MAX_LINES))
  {
    hide PagesBefore, PageCountOf, Slice, KindLines, KindAt, RowCount;
    PagesStep(m, k);
    PagesStep(m, 0);
    PagesRise(m, 0, k);
    KindOfPageIs(m, k, PagesBefore(m, k) + i, 0);
  }

  /** Every page of a kind is a card of that kind with one to five lines. */
  lemma CardsAreFilled(m: seq<Provider>, k: nat, i: nat)
    requires k < 3 && i < PageCountOf(RowCount(m, KindAt(k)))
    ensures var page := PageAt(m, PagesBefore(m, k) + i);
            page.Card? && page.kind == KindAt(k) && 1 <= |page.lines| <= MAX_LINES
  {
    hide KindLines, KindAt, PageAt, PagesBefore;
    CardIs(m, k, i);
    CountIgnoresWorst(m, KindAt(k), WorstSeverity(m));
  }

  lemma SliceContinues(lines: seq<Line>, i: nat)
    requires i * MAX_LINES < |lines|
    ensures lines[..i * MAX_LINES] + Slice(lines, i * MAX_LINES)
            == lines[..if (i + 1) * MAX_LINES < |lines| then (i + 1) * MAX_LINES else |lines|]
  {
  }

  lemma {:induction false} ShownIsPrefix(m: seq<Provider>, k: nat, n: nat)
    requires k < 3 && n <= PageCountOf(RowCount(m, KindAt(k)))
    ensures var lines := KindLines(m, KindAt(k), WorstSeverity(m));
            ShownLines(m, k, n) == lines[..if n * MAX_LINES < |lines| then n * MAX_LINES else |lines|]
  {
    hide KindLines, KindAt, PageAt;
    if n > 0 {
      ShownIsPrefix(m, k, n - 1);
      CardIs(m, k, n - 1);
      CountIgnoresWorst(m, KindAt(k), WorstSeverity(m));
      SliceContinues(KindLines(m, KindAt(k), WorstSeverity(m)), n - 1);
    }
  }

  /** The pages of a kind, read one after the other, are exactly that kind's lines in order. */
  lemma PagesPartitionTheRows(m: seq<Provider>, k: nat)
    requires k < 3
    ensures ShownLines(m, k, PageCountOf(RowCount(m, KindAt(k)))) == KindLines(m, KindAt(k), WorstSeverity(m))
  {
    hide KindLines, KindAt, ShownLines;
    var n := PageCountOf(RowCount(m, KindAt(k)));
    ShownIsPrefix(m, k, n);
    CountIgnoresWorst(m, KindAt(k), WorstSeverity(m));
    var lines := KindLines(m, KindAt(k), WorstSeverity(m));
    assert lines[..|lines|] == lines;
  }

  /** After the cards comes help, and only then. */
  lemma HelpIsLast(m: seq<Provider>, page: nat)
    ensures PageAt(m, page) == Help <==> page >= PagesBefore(m, 3)
  {
    PagesRise(m, 0, 3);
    var k := KindOfPage(m, page, 0);
    if k < 3 {
      PagesRise(m, k + 1, 3);
    }
  }

  // --- where a row is shown ---

  /** The rows of a kind's providers, counted. */
  function RowTotal(m: seq<Provider>, kind: Kind): nat
  {
    if m == [] then 0
    else RowTotal(m[..|m| - 1], kind) + if m[|m| - 1].kind == kind then |m[|m| - 1].rows| else 0
  }

  lemma {:induction false} CountIsTotal(m: seq<Provider>, kind: Kind, worst: uint8)
    ensures |KindLines(m, kind, worst)| == RowTotal(m, kind)
  {
    if m != [] {
      CountIsTotal(m[..|m| - 1], kind, worst);
    }
  }

  /** A row as its line shows it: dimmed when its provider reports a problem, and marked when that only warns and none
      is worse. */
  predicate Shows(l: Line, m: seq<Provider>, i: nat, j: nat)
  {
    && i < |m| && j < |m[i].rows| && l.row == m[i].rows[j]
    && (l.dim <==> m[i].status == 1 || m[i].status == 2 || m[i].status == 3)
    && (l.warn <==> m[i].severity == 1 && forall p :: p in m ==> p.severity <= 1)
  }

  lemma {:induction false} WorstIsWorst(m: seq<Provider>)
    ensures forall p :: p in m ==> p.severity <= WorstSeverity(m)
    ensures WorstSeverity(m) > 0 ==> exists p :: p in m && p.severity == WorstSeverity(m)
  {
    if m != [] {
      var front, last := m[..|m| - 1], m[|m| - 1];
      assert m == front + [last];
      WorstIsWorst(front);
    }
  }

  lemma {:induction false} LineAt(m: seq<Provider>, kind: Kind, worst: uint8, i: nat, j: nat)
    requires i < |m| && m[i].kind == kind && j < |m[i].rows|
    ensures RowTotal(m[..i], kind) + j < |KindLines(m, kind, worst)|
    ensures KindLines(m, kind, worst)[RowTotal(m[..i], kind) + j] == LineOf(m[i], m[i].rows[j], worst)
    decreases |m|
  {
    var front := m[..|m| - 1];
    CountIsTotal(front, kind, worst);
    if i < |front| {
      LineAt(front, kind, worst, i, j);
      assert front[..i] == m[..i];
    }
  }

  lemma RowLine(m: seq<Provider>, i: nat, j: nat)
    requires i < |m| && j < |m[i].rows|
    ensures Shows(LineOf(m[i], m[i].rows[j], WorstSeverity(m)), m, i, j)
  {
    WorstIsWorst(m);
    assert m[i] in m;
  }

  /** How many cards come before those of a kind: plans come first, then credit, then free; each holds five rows. */
  function CardsBefore(m: seq<Provider>, kind: Kind): nat
  {
    match kind
    case Plan => 0
    case Credit => (RowTotal(m, Plan) + 4) / 5
    case Free => (RowTotal(m, Plan) + 4) / 5 + (RowTotal(m, Credit) + 4) / 5
    case Unknown => (RowTotal(m, Plan) + 4) / 5 + (RowTotal(m, Credit) + 4) / 5 + (RowTotal(m, Free) + 4) / 5
  }

  lemma CardsAre(m: seq<Provider>)
    ensures PagesBefore(m, 0) == CardsBefore(m, Plan) && PagesBefore(m, 1) == CardsBefore(m, Credit)
    ensures PagesBefore(m, 2) == CardsBefore(m, Free) && PagesBefore(m, 3) == CardsBefore(m, Unknown)
  {
    CountIsTotal(m, Plan, 0);
    CountIsTotal(m, Credit, 0);
    CountIsTotal(m, Free, 0);
    hide KindLines, RowTotal;
    PagesStep(m, 0);
    PagesStep(m, 1);
    PagesStep(m, 2);
  }

  function PlaceOf(kind: Kind): nat
  {
    match kind case Plan => 0 case Credit => 1 case Free => 2 case Unknown => 3
  }

  lemma SliceHolds(lines: seq<Line>, card: nat, slot: nat)
    requires 5 * card + slot < |lines| && slot < 5
    ensures slot < |Slice(lines, card * MAX_LINES)| && Slice(lines, card * MAX_LINES)[slot] == lines[5 * card + slot]
    ensures card < PageCountOf(|lines|)
  {
  }

  /** Row j of provider i is shown in that line of a page. */
  predicate ShownOn(page: Page, m: seq<Provider>, i: nat, j: nat, slot: nat)
  {
    page.Card? && slot < |page.lines| && Shows(page.lines[slot], m, i, j)
  }

  /** The card and the line of it that a number among a kind's lines stands for. */
  lemma CardHolds(m: seq<Provider>, kind: Kind, card: nat, slot: nat)
    requires kind != Unknown && slot < 5 && 5 * card + slot < |KindLines(m, kind, WorstSeverity(m))|
    ensures var page := PageAt(m, CardsBefore(m, kind) + card);
            && page.Card? && page.kind == kind && slot < |page.lines|
            && page.lines[slot] == KindLines(m, kind, WorstSeverity(m))[5 * card + slot]
  {
    CardsAre(m);
    CountIgnoresWorst(m, kind, WorstSeverity(m));
    hide RowTotal, RowCount, KindLines, LineOf, PageAt, PagesBefore, WorstSeverity, Slice, CardsBefore, PageCountOf;
    SliceHolds(KindLines(m, kind, WorstSeverity(m)), card, slot);
    var k := PlaceOf(kind);
    assert KindAt(k) == kind && PagesBefore(m, k) == CardsBefore(m, kind);
    CardIs(m, k, card);
  }

  /** Every row of a plan, credit or free provider is a line of the one card that its number among the rows of that kind
      gives: plans first, then credit, then free, five rows a card, in the order of the snapshot. */
  lemma RowIsShown(m: seq<Provider>, i: nat, j: nat, card: nat, slot: nat)
    requires i < |m| && j < |m[i].rows| && m[i].kind != Unknown
    requires slot < 5 && 5 * card + slot == RowTotal(m[..i], m[i].kind) + j
    ensures ShownOn(PageAt(m, CardsBefore(m, m[i].kind) + card), m, i, j, slot)
    ensures PageAt(m, CardsBefore(m, m[i].kind) + card).kind == m[i].kind
  {
    hide RowTotal, KindLines, LineOf, Shows, PageAt, WorstSeverity, CardsBefore;
    LineAt(m, m[i].kind, WorstSeverity(m), i, j);
    RowLine(m, i, j);
    CardHolds(m, m[i].kind, card, slot);
  }

  method FindWorst(m: seq<Provider>) returns (worst: uint8)
    ensures worst == WorstSeverity(m)
  {
    worst := 0;
    for i := 0 to |m|
      invariant worst == WorstSeverity(m[..i])
    {
      assert m[..i + 1][..i] == m[..i];
      if m[i].severity > worst {
        worst := m[i].severity;
      }
    }
    assert m[..|m|] == m;
  }

  method BuildPlan(m: seq<Provider>, page: uint8) returns (r: Page)
    requires Fits(m)
    ensures r == PageAt(m, page)
  {
    var pages := KindPageCount(m);
    HelpIsLast(m, page);
    if page >= pages {
      return Help;
    }
    hide KindAt, Slice, KindLines, PagesBefore, WorstSeverity;
    var kind, start := ResolvePage(m, page);
    var worst := FindWorst(m);
    var lines := BuildLines(m, kind, start, worst);
    return Card(kind, lines);
  }

  function Wrap(a: nat, n: nat): (r: nat)
    requires n > 0
    ensures r < n
  {
    a % n
  }

  function PageCount(m: seq<Provider>): (n: nat)
    ensures n > 0
  {
    PagesBefore(m, 3) + 1
  }

  /** One page for every five rows of a kind, and one more for help, which is the last. */
  lemma HelpIsOnce(m: seq<Provider>, page: nat)
    ensures PageCount(m) == CardsBefore(m, Unknown) + 1
    ensures page < PageCount(m) ==> (PageAt(m, page) == Help <==> page == PageCount(m) - 1)
  {
    CardsAre(m);
    HelpIsLast(m, page);
    hide PagesBefore, PageAt, CardsBefore;
  }

  /** The page after i presses of the button. */
  function Pressed(m: seq<Provider>, page: nat, i: nat): nat
  {
    if i == 0 then page else Wrap(Pressed(m, page, i - 1) + 1, PageCount(m))
  }

  method NextPage(m: seq<Provider>, page: uint8) returns (next: uint8)
    requires Fits(m)
    ensures next == Pressed(m, page, 1) < PageCount(m)
  {
    hide PagesBefore;
    var total := CountPages(m);
    next := (page + 1) % total;
    assert Pressed(m, page, 0) == page;
  }

  lemma Small(a: nat, n: nat)
    requires a < n
    ensures Wrap(a, n) == a
  {
  }

  lemma Times(d: int, n: nat)
    ensures d > 0 ==> d * n >= n
    ensures d < 0 ==> d * n <= -(n as int)
  {
  }

  lemma Unique(a: nat, n: nat, q: nat, r: nat)
    requires a == q * n + r && r < n
    ensures Wrap(a, n) == r
  {
    var d := a / n - q;
    assert d * n == a / n * n - q * n;
    Times(d, n);
  }

  lemma OneMore(a: nat, n: nat)
    requires n > 0
    ensures Wrap(Wrap(a, n) + 1, n) == Wrap(a + 1, n)
  {
    var q, r := a / n, a % n;
    assert a == q * n + r;
    assert Wrap(a, n) == r;
    hide Wrap;
    if r + 1 < n {
      Unique(a + 1, n, q, r + 1);
      Small(r + 1, n);
    } else {
      assert (q + 1) * n == q * n + n;
      Unique(a + 1, n, q + 1, 0);
      Unique(n, n, 1, 0);
    }
  }

  lemma {:induction false} PressedIs(m: seq<Provider>, page: nat, i: nat)
    requires page < PageCount(m)
    ensures Pressed(m, page, i) == Wrap(page + i, PageCount(m))
  {
    hide PageCount, Wrap;
    if i == 0 {
      Small(page, PageCount(m));
    } else {
      PressedIs(m, page, i - 1);
      OneMore(page + i - 1, PageCount(m));
    }
  }

  lemma Wrapped(page: nat, i: nat, total: nat)
    requires page < total && i < total
    ensures Wrap(page + i, total) == if page + i < total then page + i else page + i - total
  {
    hide Wrap;
    if page + i < total {
      Small(page + i, total);
    } else {
      Unique(page + i, total, 1, page + i - total);
    }
  }

  /** From any page, each page is reached by exactly one number of presses below the number of pages. */
  lemma CycleVisitsAll(m: seq<Provider>, page: nat, target: nat)
    requires page < PageCount(m) && target < PageCount(m)
    ensures var i := if target >= page then target - page else target + PageCount(m) - page;
            i < PageCount(m) && Pressed(m, page, i) == target
            && forall j :: 0 <= j < PageCount(m) && Pressed(m, page, j) == target ==> j == i
  {
    hide PageCount, Pressed, Wrap;
    var total := PageCount(m);
    var i := if target >= page then target - page else target + total - page;
    PressedIs(m, page, i);
    Wrapped(page, i, total);
    forall j | 0 <= j < total && Pressed(m, page, j) == target
      ensures j == i
    {
      PressedIs(m, page, j);
      Wrapped(page, j, total);
    }
  }
}
