/** A poll in closed form, the scheduler as a class, and safety over every run of polls. */
module SchedRuns {
  import opened Bytes
  import opened SchedPoll

  // --- one provider's poll, in closed form ---

  /** The block a provider is served with, before its age is looked at. */
  function Chosen(c: Cell, p: Poll, id: string): Block
  {
    var deadline := Deadline(c.cooldown);
    if deadline > p.Now() then
      if c.good.Some? then Stale(c.good.value, p.untilText(deadline))
      else NoData(id, p.untilText(deadline), p.Now())
    else if p.fetch(id).block.status == "ok" || c.good.None? then Handed(p, id)
    else Stale(c.good.value, p.fetch(id).block.msg)
  }

  /** What a whole goroutine makes of its provider's data. */
  function Outcome(c: Cell, p: Poll, id: string): Cell
  {
    var given := p.fetch(id);
    if Deadline(c.cooldown) > p.Now() then
      c.(rows := if c.good.Some? then RetierAt(c.rows, c.good.value.rows) else c.rows,
         result := Some(Aged(Chosen(c, p, id), p)))
    else
      var rows := c.rows[Ref(id, p.number) := given.rows];
      var ok := given.block.status == "ok";
      Cell(if given.cooldownUntil.Some? then given.cooldownUntil else c.cooldown,
           if ok then Some(Handed(p, id)) else c.good,
           if !ok && c.good.Some? then RetierAt(rows, c.good.value.rows) else rows,
           Some(Aged(Chosen(c, p, id), p)), true, c.local)
  }

  lemma HandedStatus(p: Poll, id: string)
    ensures Handed(p, id).status == p.fetch(id).block.status && Handed(p, id).msg == p.fetch(id).block.msg
  {
  }

  /** The last two turns look at the block's age and hand it over. */
  lemma LastTurns(c: Cell, p: Poll, id: string, block: Block)
    requires c.local == Some(Aging(block))
    ensures StepCell(StepCell(c, p, id), p, id) == c.(result := Some(Aged(block, p)), local := Some(Done))
  {
    hide Aged, Deadline;
  }

  /** The first two turns of a fetch. */
  lemma FetchTurns(c: Cell, p: Poll, id: string)
    requires c.local == Some(Start) && Deadline(c.cooldown) <= p.Now()
    ensures StepCell(StepCell(c, p, id), p, id)
            == c.(rows := c.rows[Ref(id, p.number) := p.fetch(id).rows], fetched := true,
                  local := Some(Fetched(Handed(p, id), p.fetch(id).cooldownUntil, c.good)))
  {
    hide Deadline, Handed;
  }

  /** The two turns that keep or replace what was fetched and record the deadline. */
  lemma KeepTurns(c: Cell, p: Poll, id: string, block: Block, until: Option<int>)
    requires c.local == Some(Fetched(block, until, c.good))
    ensures var ok := block.status == "ok";
            StepCell(StepCell(c, p, id), p, id)
            == c.(good := if ok then Some(block) else c.good,
                  rows := if !ok && c.good.Some? then RetierAt(c.rows, c.good.value.rows) else c.rows,
                  cooldown := if until.Some? then until else c.cooldown,
                  local := Some(Aging(if ok || c.good.None? then block else Stale(c.good.value, block.msg))))
  {
    hide RetierAt, Stale, Deadline;
  }

  lemma CooledTurns(c: Cell, p: Poll, id: string)
    requires c.local == Some(Start) && Deadline(c.cooldown) > p.Now()
    ensures StepCell(StepCell(c, p, id), p, id)
            == c.(rows := if c.good.Some? then RetierAt(c.rows, c.good.value.rows) else c.rows,
                  local := Some(Aging(Chosen(c, p, id))))
  {
    hide RetierAt, Stale, NoData, Deadline;
  }

  lemma TwoTurns(c: Cell, p: Poll, id: string, n: nat)
    ensures Solo(c, p, id, n + 2) == Solo(StepCell(StepCell(c, p, id), p, id), p, id, n)
  {
    hide StepCell;
    assert Solo(c, p, id, n + 2) == Solo(StepCell(c, p, id), p, id, n + 1);
  }

  lemma DoneStays(c: Cell, p: Poll, id: string)
    requires c.local == Some(Done)
    ensures StepCell(StepCell(c, p, id), p, id) == c
  {
    hide Deadline;
  }

  lemma SoloIsOutcome(c: Cell, p: Poll, id: string)
    requires c.local == Some(Start)
    ensures Solo(c, p, id, 6) == Outcome(c, p, id).(local := Some(Done))
  {
    HandedStatus(p, id);
    hide StepCell, RetierAt, Aged, Stale, NoData, Handed, Deadline;
    var c2 := StepCell(StepCell(c, p, id), p, id);
    var c4 := StepCell(StepCell(c2, p, id), p, id);
    var c6 := StepCell(StepCell(c4, p, id), p, id);
    TwoTurns(c, p, id, 4);
    TwoTurns(c2, p, id, 2);
    TwoTurns(c4, p, id, 0);
    if Deadline(c.cooldown) > p.Now() {
      CooledTurns(c, p, id);
      LastTurns(c2, p, id, Chosen(c, p, id));
      DoneStays(c4, p, id);
    } else {
      FetchTurns(c, p, id);
      KeepTurns(c2, p, id, Handed(p, id), p.fetch(id).cooldownUntil);
      LastTurns(c4, p, id, Chosen(c, p, id));
    }
  }

  // --- a poll begins, runs under some schedule, and ends ---

  /** Poll-local maps start empty; one goroutine per fetcher. */
  function Begin(s: State, p: Poll): State
  {
    State(s.cooldowns, s.lastGood, s.rows, map[], {}, map id | id in p.ids :: Start)
  }

  function End(s: State): State
  {
    s.(locals := map[])
  }

  /** A provider's data after a poll. */
  function CellAfter(c: Cell, p: Poll, id: string): Cell
  {
    var begun := c.(result := None, fetched := false, local := None);
    if id in p.ids then Outcome(begun, p, id) else begun
  }

  /** The schedule lets every goroutine of the poll finish. */
  predicate Completes(s: State, p: Poll, schedule: seq<string>)
  {
    AllDone(Run(Begin(s, p), p, schedule))
  }

  lemma OutcomeIgnoresLocal(c: Cell, p: Poll, id: string)
    ensures Outcome(c, p, id).(local := None) == Outcome(c.(local := None), p, id)
  {
  }

  lemma BeginSeparate(s: State, p: Poll)
    requires Separate(s)
    ensures Separate(Begin(s, p))
  {
    forall id
      ensures OwnCell(CellOf(Begin(s, p), id), id)
    {
      assert OwnCell(CellOf(s, id), id);
    }
  }

  lemma EndSeparate(s: State)
    requires Separate(s)
    ensures Separate(End(s))
  {
    forall id
      ensures OwnCell(CellOf(End(s), id), id)
    {
      assert OwnCell(CellOf(s, id), id);
    }
  }

  /** Whatever the interleaving, a finished poll leaves each provider's data as its own goroutine alone would. */
  lemma EveryInterleaving(s: State, p: Poll, schedule: seq<string>, id: string)
    requires Separate(s) && Completes(s, p, schedule)
    ensures CellOf(End(Run(Begin(s, p), p, schedule)), id) == CellAfter(CellOf(s, id), p, id)
    ensures Separate(End(Run(Begin(s, p), p, schedule)))
  {
    var begun, ended := Begin(s, p), Run(Begin(s, p), p, schedule);
    BeginSeparate(s, p);
    RunIsSolo(begun, p, schedule, id);
    RunKeepsIds(begun, p, schedule);
    EndSeparate(ended);
    hide StepCell, Outcome, Run, Separate, Owned;
    var c, n := CellOf(begun, id), Turns(schedule, id);
    if id in p.ids {
      SoloIsOutcome(c, p, id);
      if n <= 6 {
        SoloDone(c, p, id, n, 6);
      } else {
        SoloDone(c, p, id, 6, n);
      }
      OutcomeIgnoresLocal(c, p, id);
    } else {
      SoloDone(c, p, id, 0, n);
    }
  }

  /** Six turns are enough: any schedule that gives every goroutine six turns, in any order, completes the poll. */
  lemma SixTurnsComplete(s: State, p: Poll, schedule: seq<string>)
    requires Separate(s) && forall id :: id in p.ids ==> Turns(schedule, id) >= 6
    ensures Completes(s, p, schedule)
  {
    var begun := Begin(s, p);
    BeginSeparate(s, p);
    RunKeepsIds(begun, p, schedule);
    forall id | id in Run(begun, p, schedule).locals
      ensures Run(begun, p, schedule).locals[id] == Done
    {
      RunIsSolo(begun, p, schedule, id);
      SoloIsOutcome(CellOf(begun, id), p, id);
      SoloDone(CellOf(begun, id), p, id, 6, Turns(schedule, id));
      hide Outcome, Run, Owned;
      assert Lookup(Run(begun, p, schedule).locals, id) == Some(Done);
    }
  }

  /** The poll-local maps, emptied. */
  function Fresh(s: State): State
  {
    s.(results := map[], fetched := {})
  }

  /** The effects of a whole goroutine, in order. */
  function Effects(c: Cell, p: Poll, id: string): (Effect, Effect, Effect)
  {
    var given, last := p.fetch(id), c.good;
    var reused := if last.Some? then Retiers(last.value.rows) else Nothing;
    if Deadline(c.cooldown) > p.Now() then (Nothing, reused, Nothing)
    else
      (Allocates(given.rows), if given.block.status == "ok" then Keeps(Handed(p, id)) else reused,
       if given.cooldownUntil.Some? then Cools(given.cooldownUntil.value) else Nothing)
  }

  /** The same in terms of the shared maps. */
  function Whole(s: State, p: Poll, id: string): State
  {
    var c := CellOf(s, id);
    var e := Effects(c, p, id);
    var s1 := Apply(s, e.0, id, p.number);
    var s2 := Apply(s1, e.1, id, p.number);
    var s3 := Apply(s2, e.2, id, p.number);
    Apply(s3, Serves(Aged(Chosen(c, p, id), p)), id, p.number)
  }

  function WholeAll(s: State, p: Poll, ids: seq<string>): State
    decreases |ids|
  {
    if ids == [] then s else WholeAll(Whole(s, p, ids[0]), p, ids[1..])
  }

  function Collected(ids: seq<string>, results: map<string, Block>): seq<Block>
  {
    if ids == [] then []
    else (if ids[0] in results then [results[ids[0]]] else []) + Collected(ids[1..], results)
  }

  method Collect(ids: seq<string>, results: map<string, Block>) returns (blocks: seq<Block>)
    ensures blocks == Collected(ids, results)
  {
    blocks := [];
    for i := 0 to |ids|
      invariant blocks + Collected(ids[i..], results) == Collected(ids, results)
    {
      assert ids[i..][1..] == ids[i + 1..];
      if ids[i] in results {
        blocks := blocks + [results[ids[i]]];
      }
    }
  }

  // --- the scheduler object ---

  class Scheduler {
    var cooldowns: map<string, int>
    var lastGood: map<string, Block>
    var rows: map<Ref, seq<Row>>
    var results: map<string, Block>
    var fetched: set<string>

    function View(): State
      reads this
    {
      State(cooldowns, lastGood, rows, results, fetched, map[])
    }

    /** The body of one goroutine, run without a break. */
    method FetchOne(p: Poll, id: string)
      modifies this
      ensures View() == Whole(old(View()), p, id)
    {
      hide OwnCell, Outcome, RetierAt, Aged, Stale, NoData, Owned, Handed, Deadline;
      HandedStatus(p, id);
      var deadline := Deadline(Lookup(cooldowns, id));
      var last := Lookup(lastGood, id);
      var block: Block;
      if deadline > p.Now() {
        if last.Some? {
          block := Stale(last.value, p.untilText(deadline));
          rows := RetierAt(rows, last.value.rows);
        } else {
          block := NoData(id, p.untilText(deadline), p.Now());
        }
      } else {
        block := Handed(p, id);
        rows, fetched := rows[Ref(id, p.number) := p.fetch(id).rows], fetched + {id};
        if block.status == "ok" {
          lastGood := lastGood[id := block];
        } else if last.Some? {
          block := Stale(last.value, block.msg);
          rows := RetierAt(rows, last.value.rows);
        }
        if p.fetch(id).cooldownUntil.Some? {
          cooldowns := cooldowns[id := p.fetch(id).cooldownUntil.value];
        }
      }
      block := Aged(block, p);
      results := results[id := block];
    }

    /** A poll, its goroutines one after the other; returns the blocks in fetcher order. */
    method PollOnce(p: Poll) returns (blocks: seq<Block>)
      modifies this
      ensures View() == WholeAll(Fresh(old(View())), p, p.ids)
      ensures blocks == Collected(p.ids, View().results)
    {
      results, fetched := map[], {};
      ghost var begun := View();
      for i := 0 to |p.ids|
        invariant WholeAll(View(), p, p.ids[i..]) == WholeAll(begun, p, p.ids)
      {
        hide Whole, Collected;
        assert p.ids[i..][1..] == p.ids[i + 1..];
        FetchOne(p, p.ids[i]);
      }
      blocks := Collect(p.ids, results);
    }
  }

  lemma OutcomeIsEffects(c: Cell, p: Poll, id: string)
    ensures var e := Effects(c, p, id);
            var c1 := ApplyCell(c, e.0, id, p.number);
            var c2 := ApplyCell(c1, e.1, id, p.number);
            var c3 := ApplyCell(c2, e.2, id, p.number);
            ApplyCell(c3, Serves(Aged(Chosen(c, p, id), p)), id, p.number) == Outcome(c, p, id)
  {
    hide RetierAt, Aged, Chosen, Deadline, Handed;
  }

  lemma EffectsOwn(c: Cell, p: Poll, id: string)
    requires OwnCell(c, id)
    ensures var e := Effects(c, p, id); OwnEffect(e.0, id) && OwnEffect(e.1, id) && OwnEffect(e.2, id)
    ensures OwnEffect(Serves(Aged(Chosen(c, p, id), p)), id)
  {
  }

  lemma WholeIsLocal(s: State, p: Poll, id: string, other: string)
    requires OwnCell(CellOf(s, id), id)
    ensures CellOf(Whole(s, p, id), other)
            == if other == id then Outcome(CellOf(s, id), p, id) else CellOf(s, other)
  {
    hide Apply, ApplyCell, Aged, Chosen, Effects, Outcome, OwnEffect, CellOf;
    var c := CellOf(s, id);
    EffectsOwn(c, p, id);
    OutcomeIsEffects(c, p, id);
    var e := Effects(c, p, id);
    var s1 := Apply(s, e.0, id, p.number);
    var s2 := Apply(s1, e.1, id, p.number);
    var s3 := Apply(s2, e.2, id, p.number);
    ApplyIsLocal(s, e.0, id, p.number, other);
    ApplyIsLocal(s1, e.1, id, p.number, other);
    ApplyIsLocal(s2, e.2, id, p.number, other);
    ApplyIsLocal(s3, Serves(Aged(Chosen(c, p, id), p)), id, p.number, other);
  }

  predicate Distinct(ids: seq<string>)
  {
    forall i, j :: 0 <= i < j < |ids| ==> ids[i] != ids[j]
  }

  lemma OutcomeOwns(c: Cell, p: Poll, id: string)
    requires OwnCell(c, id)
    ensures OwnCell(Outcome(c, p, id), id)
  {
  }

  lemma {:induction false} WholeAllCells(s: State, p: Poll, ids: seq<string>, id: string)
    requires Separate(s) && Distinct(ids)
    ensures CellOf(WholeAll(s, p, ids), id)
            == if id in ids then Outcome(CellOf(s, id), p, id) else CellOf(s, id)
    decreases |ids|
  {
    hide CellOf, Outcome, Whole, OwnCell;
    if ids != [] {
      var first, next := ids[0], Whole(s, p, ids[0]);
      forall other
        ensures CellOf(next, other) == if other == first then Outcome(CellOf(s, first), p, first) else CellOf(s, other)
        ensures OwnCell(CellOf(next, other), other)
      {
        assert OwnCell(CellOf(s, first), first) && OwnCell(CellOf(s, other), other);
        WholeIsLocal(s, p, first, other);
        OutcomeOwns(CellOf(s, first), p, first);
      }
      WholeAllCells(next, p, ids[1..], id);
      assert ids == [first] + ids[1..];
    }
  }

  lemma FreshSeparate(s: State)
    requires Separate(s)
    ensures Separate(Fresh(s))
  {
    forall id
      ensures OwnCell(CellOf(Fresh(s), id), id)
    {
      assert OwnCell(CellOf(s, id), id);
    }
  }

  /** Every complete interleaving of a poll ends where running the goroutines one after the other does. */
  lemma AnyOrderIsInOrder(s: State, p: Poll, schedule: seq<string>)
    requires Separate(s) && s.locals == map[] && Distinct(p.ids) && Completes(s, p, schedule)
    ensures End(Run(Begin(s, p), p, schedule)) == WholeAll(Fresh(s), p, p.ids)
  {
    var ended, inOrder := End(Run(Begin(s, p), p, schedule)), WholeAll(Fresh(s), p, p.ids);
    FreshSeparate(s);
    forall id
      ensures CellOf(ended, id) == CellOf(inOrder, id)
    {
      EveryInterleaving(s, p, schedule, id);
      WholeAllCells(Fresh(s), p, p.ids, id);
      hide Outcome, WholeAll, Run, Owned;
    }
    SameCells(ended, inOrder);
  }
}
