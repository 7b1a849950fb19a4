/** Safety over every run of polls, each poll under any interleaving of its goroutines. */
module SchedSafety {
  import opened Bytes
  import opened SchedPoll
  import opened SchedRuns

  /** A poll and the interleaving it ran under. */
  datatype Event = Event(poll: Poll, schedule: seq<string>)

  function StateAfter(s: State, events: seq<Event>): State
  {
    if events == [] then s
    else
      var last := events[|events| - 1];
      End(Run(Begin(StateAfter(s, events[..|events| - 1]), last.poll), last.poll, last.schedule))
  }

  /** Each poll ran to its end, and polls are numbered as they come, from 1. */
  ghost predicate History(s: State, events: seq<Event>)
  {
    && Separate(s) && s.locals == map[]
    && forall k :: 0 <= k < |events| ==>
         && Completes(StateAfter(s, events[..k]), events[k].poll, events[k].schedule)
         && events[k].poll.number == k + 1
  }

  /** The provider's data before poll k. */
  function At(s: State, events: seq<Event>, k: nat, id: string): Cell
    requires k <= |events|
  {
    CellOf(StateAfter(s, events[..k]), id)
  }

  lemma PrefixHistory(s: State, events: seq<Event>, n: nat)
    requires History(s, events) && n <= |events|
    ensures History(s, events[..n])
  {
    forall k | 0 <= k < n
      ensures Completes(StateAfter(s, events[..n][..k]), events[..n][k].poll, events[..n][k].schedule)
    {
      assert events[..n][..k] == events[..k];
    }
  }

  lemma {:induction false} StaysSeparate(s: State, events: seq<Event>)
    requires History(s, events)
    ensures Separate(StateAfter(s, events))
  {
    if events != [] {
      var k := |events| - 1;
      PrefixHistory(s, events, k);
      StaysSeparate(s, events[..k]);
      EveryInterleaving(StateAfter(s, events[..k]), events[k].poll, events[k].schedule, "");
    }
  }

  /** A provider's data moves from poll to poll by its own goroutine alone. */
  lemma OnePoll(s: State, events: seq<Event>, k: nat, id: string)
    requires History(s, events) && k < |events|
    ensures At(s, events, k + 1, id) == CellAfter(At(s, events, k, id), events[k].poll, id)
  {
    hide CellOf, CellAfter, Separate;
    PrefixHistory(s, events, k);
    StaysSeparate(s, events[..k]);
    assert events[..k + 1][..k] == events[..k];
    EveryInterleaving(StateAfter(s, events[..k]), events[k].poll, events[k].schedule, id);
  }

  // --- no fetch before a recorded deadline ---

  predicate FetchedAt(s: State, events: seq<Event>, k: nat, id: string)
    requires k < |events|
  {
    id in StateAfter(s, events[..k + 1]).fetched
  }

  /** The rate-limit deadline poll k recorded for the provider. */
  function Recorded(s: State, events: seq<Event>, k: nat, id: string): Option<int>
    requires k < |events|
  {
    if FetchedAt(s, events, k, id) then events[k].poll.fetch(id).cooldownUntil else None
  }

  lemma FetchMeaning(s: State, events: seq<Event>, k: nat, id: string)
    requires History(s, events) && k < |events|
    ensures FetchedAt(s, events, k, id)
            <==> id in events[k].poll.ids && Deadline(At(s, events, k, id).cooldown) <= events[k].poll.Now()
    ensures At(s, events, k + 1, id).cooldown
            == if Recorded(s, events, k, id).Some? then Recorded(s, events, k, id) else At(s, events, k, id).cooldown
  {
    hide RetierAt, Aged, Chosen, StateAfter;
    OnePoll(s, events, k, id);
    assert FetchedAt(s, events, k, id) == At(s, events, k + 1, id).fetched;
  }

  /** The deadline the poll before poll j recorded for the provider, or, before the first, the one loaded with the saved
      state. */
  function DeadlineFrom(s: State, events: seq<Event>, j: nat, id: string): Option<int>
    requires j <= |events|
  {
    if j == 0 then Lookup(s.cooldowns, id) else Recorded(s, events, j - 1, id)
  }

  lemma StartsLoaded(s: State, events: seq<Event>, id: string)
    ensures At(s, events, 0, id).cooldown == Lookup(s.cooldowns, id)
  {
    assert events[..0] == [];
  }

  lemma {:induction false} DeadlineStays(s: State, events: seq<Event>, j: nat, k: nat, id: string)
    requires History(s, events) && j <= k <= |events| && DeadlineFrom(s, events, j, id).Some?
    requires forall i :: j < i <= k ==> DeadlineFrom(s, events, i, id).None?
    ensures At(s, events, k, id).cooldown == DeadlineFrom(s, events, j, id)
    decreases k
  {
    hide At, Recorded, FetchedAt, History;
    if k == 0 {
      StartsLoaded(s, events, id);
    } else {
      FetchMeaning(s, events, k - 1, id);
      assert DeadlineFrom(s, events, k, id) == Recorded(s, events, k - 1, id);
      if j < k {
        DeadlineStays(s, events, j, k - 1, id);
      }
    }
  }

  /** A polled provider is fetched exactly from the latest deadline on, loaded or recorded. */
  lemma FetchedFromDeadlineOn(s: State, events: seq<Event>, j: nat, k: nat, id: string)
    requires History(s, events) && j <= k < |events|
    requires DeadlineFrom(s, events, j, id).Some? && forall i :: j < i <= k ==> DeadlineFrom(s, events, i, id).None?
    ensures FetchedAt(s, events, k, id)
            <==> id in events[k].poll.ids
                 && DeadlineFrom(s, events, j, id).value * 1_000_000_000 <= events[k].poll.nowNs
  {
    hide At, DeadlineFrom, FetchedAt, History;
    DeadlineStays(s, events, j, k, id);
    FetchMeaning(s, events, k, id);
  }

  lemma {:induction false} NoDeadlineYet(s: State, events: seq<Event>, k: nat, id: string)
    requires History(s, events) && k <= |events|
    requires forall i :: 0 <= i <= k ==> DeadlineFrom(s, events, i, id).None?
    ensures At(s, events, k, id).cooldown == None
    decreases k
  {
    hide At, Recorded, FetchedAt, History;
    assert DeadlineFrom(s, events, k, id).None?;
    if k == 0 {
      StartsLoaded(s, events, id);
    } else {
      FetchMeaning(s, events, k - 1, id);
      NoDeadlineYet(s, events, k - 1, id);
    }
  }

  /** Without any deadline a polled provider is always fetched, the clock being past 1970. */
  lemma FetchedWithoutDeadline(s: State, events: seq<Event>, k: nat, id: string)
    requires History(s, events) && k < |events|
    requires forall i :: 0 <= i <= k ==> DeadlineFrom(s, events, i, id).None?
    ensures FetchedAt(s, events, k, id) <==> id in events[k].poll.ids && 0 <= events[k].poll.nowNs
  {
    hide At, DeadlineFrom, FetchedAt, History;
    NoDeadlineYet(s, events, k, id);
    FetchMeaning(s, events, k, id);
  }

  predicate ClockRuns(events: seq<Event>)
  {
    forall i, j :: 0 <= i <= j < |events| ==> events[i].poll.nowNs <= events[j].poll.nowNs
  }

  lemma RecordedWasFetched(s: State, events: seq<Event>, i: nat, id: string)
    requires 0 < i <= |events| && DeadlineFrom(s, events, i, id).Some?
    ensures FetchedAt(s, events, i - 1, id)
  {
  }

  /** With a clock that does not run backwards, no provider is fetched before any deadline ever loaded or recorded. */
  lemma {:induction false} NoFetchBeforeAnyDeadline(s: State, events: seq<Event>, j: nat, k: nat, id: string)
    requires History(s, events) && ClockRuns(events) && j <= k < |events|
    requires DeadlineFrom(s, events, j, id).Some? && FetchedAt(s, events, k, id)
    ensures DeadlineFrom(s, events, j, id).value * 1_000_000_000 <= events[k].poll.nowNs
    decreases k
  {
    hide History, StateAfter;
    if i :| j < i <= k && DeadlineFrom(s, events, i, id).Some? {
      RecordedWasFetched(s, events, i, id);
      NoFetchBeforeAnyDeadline(s, events, j, i - 1, id);
      assert events[i - 1].poll.nowNs <= events[k].poll.nowNs;
    } else {
      FetchedFromDeadlineOn(s, events, j, k, id);
    }
  }

  // --- what is served ---

  function RowsOf(rows: map<Ref, seq<Row>>, ref: Option<Ref>): seq<Row>
  {
    if ref.Some? && ref.value in rows then rows[ref.value] else []
  }

  /** A block with its rows, as a fetch handed it over. */
  datatype Good = Good(block: Block, rows: seq<Row>)

  /** The latest block fetched as ok before poll k, or the one the run started with. */
  function LatestOk(s: State, events: seq<Event>, k: nat, id: string): Option<Good>
    requires k <= |events|
    decreases k
  {
    if k == 0 then
      if id in s.lastGood then Some(Good(s.lastGood[id], RowsOf(s.rows, s.lastGood[id].rows))) else None
    else if FetchedAt(s, events, k - 1, id) && events[k - 1].poll.fetch(id).block.status == "ok" then
      Some(Good(events[k - 1].poll.fetch(id).block, events[k - 1].poll.fetch(id).rows))
    else LatestOk(s, events, k - 1, id)
  }

  /** The rows as they were fetched, or with their tiers computed from their percentages. */
  predicate KeptRows(a: seq<Row>, b: seq<Row>)
  {
    a == b || a == Retiered(b)
  }

  /** The block is the good one, but for its status and message. */
  predicate SameData(b: Block, good: Block)
  {
    b.(status := good.status, msg := good.msg, rows := good.rows) == good
  }

  predicate Shows(b: Block, rows: map<Ref, seq<Row>>, good: Good)
  {
    SameData(b, good.block) && KeptRows(RowsOf(rows, b.rows), good.rows)
  }

  predicate Older(b: Block, rows: map<Ref, seq<Row>>, id: string, k: nat)
  {
    b.rows.Some? ==> b.rows.value in rows && b.rows.value.owner == id && b.rows.value.poll <= k
  }

  /** The kept block shows the latest good one, and its array is older than the next poll. */
  predicate Keeping(c: Cell, good: Option<Good>, id: string, k: nat)
  {
    && c.good.Some? == good.Some?
    && (good.Some? ==> Shows(c.good.value, c.rows, good.value))
    && (c.good.Some? ==> Older(c.good.value, c.rows, id, k))
  }

  /** A state to start from: nothing kept, or blocks loaded with arrays of their own. */
  predicate Loaded(s: State)
  {
    forall id :: id in s.lastGood ==> Older(s.lastGood[id], s.rows, id, 0)
  }

  lemma RetierTwice(rows: seq<Row>)
    ensures Retiered(Retiered(rows)) == Retiered(rows)
  {
    var once := Retiered(rows);
    assert forall i :: 0 <= i < |rows| ==> Retiered(once)[i] == once[i];
  }

  lemma NoRows(rows: seq<Row>)
    ensures rows == [] || Retiered(rows) == [] ==> rows == Retiered(rows) == []
  {
  }

  lemma RetierShows(b: Block, rows: map<Ref, seq<Row>>, good: Good)
    requires Shows(b, rows, good)
    ensures Shows(b, RetierAt(rows, b.rows), good)
    ensures (b.rows.Some? ==> b.rows.value in rows) ==>
              RowsOf(RetierAt(rows, b.rows), b.rows) == Retiered(good.rows)
  {
    RetierTwice(good.rows);
    hide Retiered;
    NoRows(good.rows);
  }

  lemma PutShows(b: Block, rows: map<Ref, seq<Row>>, good: Good, ref: Ref, given: seq<Row>)
    requires Shows(b, rows, good) && (b.rows.Some? ==> b.rows.value != ref)
    ensures Shows(b, rows[ref := given], good)
  {
  }

  function GoodAfter(c: Cell, p: Poll, id: string, good: Option<Good>): Option<Good>
  {
    if id in p.ids && Deadline(c.cooldown) <= p.Now() && p.fetch(id).block.status == "ok" then
      Some(Good(p.fetch(id).block, p.fetch(id).rows))
    else good
  }

  /** A block fetched at that time is not older than two intervals when the poll runs; one without a time never is. */
  predicate Recent(fetchedAt: int, p: Poll)
  {
    fetchedAt <= 0 || p.nowNs - fetchedAt * 1_000_000_000 <= 2 * p.intervalNs
  }

  /** A block just fetched as ok comes with the rows of that fetch, and is stale exactly when it is old; one served
      again is stale, its tiers computed anew. */
  predicate Serves(b: Block, rows: map<Ref, seq<Row>>, good: Good, fetched: bool, p: Poll)
  {
    && SameData(b, good.block)
    && if fetched then
         && b.status == (if Recent(good.block.fetchedAt, p) then "ok" else "stale")
         && RowsOf(rows, b.rows) == good.rows
       else b.status == "stale" && RowsOf(rows, b.rows) == Retiered(good.rows)
  }

  lemma AgedServes(b: Block, rows: map<Ref, seq<Row>>, good: Good, fetched: bool, p: Poll)
    requires SameData(b, good.block) && b.status == if fetched then "ok" else "stale"
    requires RowsOf(rows, b.rows) == if fetched then good.rows else Retiered(good.rows)
    ensures Serves(Aged(b, p), rows, good, fetched, p) && Aged(b, p).msg == b.msg
  {
    hide Retiered, RowsOf;
  }

  lemma StaleData(b: Block, msg: string, good: Block)
    requires SameData(b, good)
    ensures SameData(Stale(b, msg), good) && Stale(b, msg).rows == b.rows
    ensures Stale(b, msg).status == "stale" && Stale(b, msg).msg == msg
  {
  }

  /** The poll fetched the provider, and got a good block. */
  predicate FetchedOk(c: Cell, p: Poll, id: string)
  {
    Deadline(c.cooldown) <= p.Now() && p.fetch(id).block.status == "ok"
  }

  /** The message of what is served: the fetch's own, or until when the provider is not asked. */
  function MessageOf(c: Cell, p: Poll, id: string): string
  {
    if Deadline(c.cooldown) > p.Now() then p.untilText(Deadline(c.cooldown)) else p.fetch(id).block.msg
  }

  lemma ServesCooled(c: Cell, p: Poll, id: string, good: Option<Good>, k: nat)
    requires Keeping(c, good, id, k) && Deadline(c.cooldown) > p.Now()
    ensures var after := Outcome(c, p, id);
            && Keeping(after, good, id, k + 1)
            && (good.Some? ==>
                  && after.result.Some? && Serves(after.result.value, after.rows, good.value, false, p)
                  && after.result.value.msg == MessageOf(c, p, id))
  {
    hide KeptRows, SameData, RowsOf, Serves, Aged, Stale, NoData, Deadline, Retiered;
    if good.Some? {
      var b, msg := c.good.value, p.untilText(Deadline(c.cooldown));
      RetierShows(b, c.rows, good.value);
      StaleData(b, msg, good.value.block);
      AgedServes(Stale(b, msg), RetierAt(c.rows, b.rows), good.value, false, p);
    }
  }

  lemma ServesFetched(c: Cell, p: Poll, id: string, k: nat)
    requires p.number == k + 1 && Deadline(c.cooldown) <= p.Now() && p.fetch(id).block.status == "ok"
    ensures var after, good := Outcome(c, p, id), Good(p.fetch(id).block, p.fetch(id).rows);
            && Keeping(after, Some(good), id, k + 1)
            && after.result.Some? && Serves(after.result.value, after.rows, good, true, p)
            && after.result.value.msg == MessageOf(c, p, id)
  {
    hide Aged, NoData, Deadline, RetierAt;
    var rows := c.rows[Ref(id, p.number) := p.fetch(id).rows];
    AgedServes(Handed(p, id), rows, Good(p.fetch(id).block, p.fetch(id).rows), true, p);
  }

  lemma ServesFailed(c: Cell, p: Poll, id: string, good: Option<Good>, k: nat)
    requires Keeping(c, good, id, k) && p.number == k + 1
    requires Deadline(c.cooldown) <= p.Now() && p.fetch(id).block.status != "ok"
    ensures var after := Outcome(c, p, id);
            && Keeping(after, good, id, k + 1)
            && (good.Some? ==>
                  && after.result.Some? && Serves(after.result.value, after.rows, good.value, false, p)
                  && after.result.value.msg == MessageOf(c, p, id))
  {
    hide KeptRows, SameData, RowsOf, Serves, Aged, Stale, NoData, Deadline, Retiered;
    if good.Some? {
      var b, msg := c.good.value, p.fetch(id).block.msg;
      var put := c.rows[Ref(id, p.number) := p.fetch(id).rows];
      PutShows(b, c.rows, good.value, Ref(id, p.number), p.fetch(id).rows);
      RetierShows(b, put, good.value);
      StaleData(b, msg, good.value.block);
      AgedServes(Stale(b, msg), RetierAt(put, b.rows), good.value, false, p);
    }
  }

  /** One poll keeps the latest good block and serves it. */
  lemma PollServes(c: Cell, p: Poll, id: string, good: Option<Good>, k: nat)
    requires Keeping(c, good, id, k) && p.number == k + 1
    ensures var after, now := CellAfter(c, p, id), GoodAfter(c, p, id, good);
            && Keeping(after, now, id, k + 1)
            && (id in p.ids && now.Some? ==>
                  && after.result.Some?
                  && Serves(after.result.value, after.rows, now.value, FetchedOk(c, p, id), p)
                  && after.result.value.msg == MessageOf(c, p, id))
  {
    if id in p.ids {
      hide Serves, Aged, Stale, NoData;
      if Deadline(c.cooldown) > p.Now() {
        ServesCooled(c, p, id, good, k);
      } else if p.fetch(id).block.status == "ok" {
        ServesFetched(c, p, id, k);
      } else {
        ServesFailed(c, p, id, good, k);
      }
    }
  }

  lemma LatestOkStep(s: State, events: seq<Event>, k: nat, id: string)
    requires History(s, events) && k < |events|
    ensures LatestOk(s, events, k + 1, id)
            == GoodAfter(At(s, events, k, id), events[k].poll, id, LatestOk(s, events, k, id))
  {
    hide At, History, Recorded;
    FetchMeaning(s, events, k, id);
  }

  lemma NumberOf(s: State, events: seq<Event>, k: nat)
    requires History(s, events) && k < |events|
    ensures events[k].poll.number == k + 1
  {
  }

  lemma StartKeeps(s: State, events: seq<Event>, id: string)
    requires Loaded(s)
    ensures Keeping(At(s, events, 0, id), LatestOk(s, events, 0, id), id, 0)
  {
    assert events[..0] == [];
  }

  lemma {:induction false} AlwaysKeeping(s: State, events: seq<Event>, k: nat, id: string)
    requires History(s, events) && Loaded(s) && k <= |events|
    ensures Keeping(At(s, events, k, id), LatestOk(s, events, k, id), id, k)
    decreases k
  {
    hide At, History, LatestOk, GoodAfter, CellAfter, Keeping, Loaded, Serves;
    if k == 0 {
      StartKeeps(s, events, id);
    } else {
      AlwaysKeeping(s, events, k - 1, id);
      OnePoll(s, events, k - 1, id);
      LatestOkStep(s, events, k - 1, id);
      NumberOf(s, events, k - 1);
      PollServes(At(s, events, k - 1, id), events[k - 1].poll, id, LatestOk(s, events, k - 1, id), k - 1);
    }
  }

  /** The message poll k serves the provider with. */
  function MessageAt(s: State, events: seq<Event>, k: nat, id: string): string
    requires k < |events|
  {
    if FetchedAt(s, events, k, id) then events[k].poll.fetch(id).block.msg
    else events[k].poll.untilText(Deadline(At(s, events, k, id).cooldown))
  }

  /** Over every run: once a provider has a good block, each poll serves it with the data of its latest ok fetch:
      right after that fetch with its rows, ok exactly unless it is older than two intervals, and later as stale, with
      the same rows and their tiers computed anew; the message is the latest fetch's, or until when there is none. */
  lemma ServedFromLatestOk(s: State, events: seq<Event>, k: nat, id: string)
    requires History(s, events) && Loaded(s) && k < |events|
    requires id in events[k].poll.ids && LatestOk(s, events, k + 1, id).Some?
    ensures var after := At(s, events, k + 1, id);
            && after.result.Some? && after.result.value.msg == MessageAt(s, events, k, id)
            && Serves(after.result.value, after.rows, LatestOk(s, events, k + 1, id).value,
                      FetchedAt(s, events, k, id) && events[k].poll.fetch(id).block.status == "ok", events[k].poll)
  {
    FetchMeaning(s, events, k, id);
    hide At, History, LatestOk, GoodAfter, CellAfter, Keeping, Loaded, Serves;
    AlwaysKeeping(s, events, k, id);
    OnePoll(s, events, k, id);
    LatestOkStep(s, events, k, id);
    NumberOf(s, events, k);
    PollServes(At(s, events, k, id), events[k].poll, id, LatestOk(s, events, k, id), k);
  }

  lemma OutcomeWithoutGood(c: Cell, p: Poll, id: string)
    requires c.good.None? && id in p.ids
    ensures var after, given := CellAfter(c, p, id), p.fetch(id);
            && after.result.Some?
            && (Deadline(c.cooldown) <= p.Now() ==>
                  && after.result.value.(rows := given.block.rows)
                     == given.block.(status := if Recent(given.block.fetchedAt, p) then given.block.status else "stale")
                  && RowsOf(after.rows, after.result.value.rows) == given.rows)
            && (Deadline(c.cooldown) > p.Now() ==>
                  after.result.value
                  == Block(id, "", "", "", "", "stale", p.untilText(Deadline(c.cooldown)), p.Now(), None))
  {
    hide RetierAt, Deadline;
  }

  /** Over every run: a provider that has never been good is served what the fetch gave, with its status unless that is
      older than two intervals, or, when it is not asked, an empty stale block with the reason. */
  lemma ServedWithoutGood(s: State, events: seq<Event>, k: nat, id: string)
    requires History(s, events) && Loaded(s) && k < |events|
    requires id in events[k].poll.ids && LatestOk(s, events, k + 1, id).None?
    ensures var p, after := events[k].poll, At(s, events, k + 1, id);
            var given := p.fetch(id);
            && after.result.Some? && after.result.value.msg == MessageAt(s, events, k, id)
            && (FetchedAt(s, events, k, id) ==>
                  && after.result.value.(rows := given.block.rows)
                     == given.block.(status := if Recent(given.block.fetchedAt, p) then given.block.status else "stale")
                  && RowsOf(after.rows, after.result.value.rows) == given.rows)
            && (!FetchedAt(s, events, k, id) ==>
                  after.result.value == Block(id, "", "", "", "", "stale", MessageAt(s, events, k, id), p.Now(), None))
  {
    hide At, History, LatestOk, Loaded, CellAfter, RowsOf, Recent, FetchedAt;
    AlwaysKeeping(s, events, k, id);
    OnePoll(s, events, k, id);
    LatestOkStep(s, events, k, id);
    FetchMeaning(s, events, k, id);
    OutcomeWithoutGood(At(s, events, k, id), events[k].poll, id);
  }
}
