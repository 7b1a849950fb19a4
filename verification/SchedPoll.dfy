/** One poll: a goroutine per provider over shared maps, and why the interleaving does not matter. */
module SchedPoll {
  import opened Bytes

  datatype Row = Row(key: string, title: string, pct: Option<int>, text: string, tier: string, resetAt: Option<int>)

  /** A row array in memory. Copying a block copies the reference, so blocks share arrays. */
  datatype Ref = Ref(owner: string, poll: nat)

  datatype Block = Block(id: string, title: string, plan: string, kind: string, severity: string,
                         status: string, msg: string, fetchedAt: int, rows: Option<Ref>)

  /** What a fetch returns: a block, the array it allocated, and the deadline of a rate limit. */
  datatype Fetch = Fetch(block: Block, rows: seq<Row>, cooldownUntil: Option<int>)

  /** A poll's inputs. Times are nanoseconds, block times and deadlines whole seconds. */
  datatype Poll = Poll(number: nat, nowNs: int, intervalNs: int, ids: seq<string>, fetch: string -> Fetch,
                       untilText: int -> string)
  {
    function Now(): int
    {
      nowNs / 1_000_000_000
    }
  }

  /** Where a goroutine stands between two steps, with its local variables. */
  datatype Local =
    | Start
    | Cooled(deadline: int, last: Option<Block>)
    | Fetching(last: Option<Block>)
    | Fetched(block: Block, until: Option<int>, last: Option<Block>)
    | Cooling(block: Block, until: Option<int>)
    | Aging(block: Block)
    | Storing(block: Block)
    | Done

  datatype State = State(cooldowns: map<string, int>, lastGood: map<string, Block>, rows: map<Ref, seq<Row>>,
                         results: map<string, Block>, fetched: set<string>, locals: map<string, Local>)

  // --- tiers ---

  function Tier(pct: int): string
  {
    if pct < 50 then "ok" else if pct < 80 then "warn" else "crit"
  }

  function RetierRow(r: Row): Row
  {
    if r.pct.Some? then r.(tier := Tier(r.pct.value)) else r
  }

  function Retiered(rows: seq<Row>): (r: seq<Row>)
    ensures |r| == |rows|
    ensures forall i :: 0 <= i < |rows| ==> r[i] == RetierRow(rows[i])
  {
    if rows == [] then [] else [RetierRow(rows[0])] + Retiered(rows[1..])
  }

  /** A row with its tier computed from its percentage, nothing else being changed; without one it stays as it is. */
  predicate TierFits(was: Row, now: Row)
  {
    && now.(tier := was.tier) == was
    && match was.pct
       case None => now.tier == was.tier
       case Some(pct) =>
         && (now.tier == "ok" <==> pct < 50)
         && (now.tier == "warn" <==> 50 <= pct < 80)
         && (now.tier == "crit" <==> 80 <= pct)
  }

  lemma RetieredFits(rows: seq<Row>, i: nat)
    requires i < |rows|
    ensures TierFits(rows[i], Retiered(rows)[i])
  {
    assert Retiered(rows)[i] == RetierRow(rows[i]);
  }

  method RecomputeTiers(rows: array<Row>)
    modifies rows
    ensures rows[..] == Retiered(old(rows[..]))
    ensures forall i :: 0 <= i < rows.Length ==> TierFits(old(rows[i]), rows[i])
  {
    for i := 0 to rows.Length
      invariant forall k :: 0 <= k < i ==> rows[k] == RetierRow(old(rows[k]))
      invariant forall k :: i <= k < rows.Length ==> rows[k] == old(rows[k])
    {
      if rows[i].pct.Some? {
        rows[i] := rows[i].(tier := Tier(rows[i].pct.value));
      }
    }
  }

  /** The row array a reference names, rewritten in place. */
  function RetierAt(rows: map<Ref, seq<Row>>, ref: Option<Ref>): map<Ref, seq<Row>>
  {
    if ref.Some? && ref.value in rows then rows[ref.value := Retiered(rows[ref.value])] else rows
  }

  // --- one step of one goroutine ---

  function Lookup<V>(m: map<string, V>, id: string): Option<V>
  {
    if id in m then Some(m[id]) else None
  }

  function Deadline(cooldown: Option<int>): int
  {
    if cooldown.Some? then cooldown.value else 0
  }

  function Stale(b: Block, msg: string): Block
  {
    b.(status := "stale", msg := msg)
  }

  function NoData(id: string, msg: string, now: int): Block
  {
    Block(id, "", "", "", "", "stale", msg, now, None)
  }

  /** A block older than two intervals is stale, whatever its source. */
  function Aged(b: Block, p: Poll): Block
  {
    if b.fetchedAt > 0 && p.nowNs - b.fetchedAt * 1_000_000_000 > 2 * p.intervalNs then b.(status := "stale") else b
  }

  /** The block a fetch hands over; its array is the one this poll allocated for this provider. */
  function Handed(p: Poll, id: string): Block
  {
    p.fetch(id).block.(rows := Some(Ref(id, p.number)))
  }

  /** What a step does to the shared state. */
  datatype Effect =
    | Nothing
    | Allocates(rows: seq<Row>)
    | Retiers(ref: Option<Ref>)
    | Keeps(block: Block)
    | Cools(until: int)
    | Serves(block: Block)

  /** One step of id's goroutine: where it stands next and its effect. Only the first step reads the shared state. */
  function Move(local: Local, deadline: int, good: Option<Block>, p: Poll, id: string): (Local, Effect)
  {
    match local
    case Start => (if deadline > p.Now() then Cooled(deadline, good) else Fetching(good), Nothing)
    case Cooled(until, last) =>
      if last.Some? then (Aging(Stale(last.value, p.untilText(until))), Retiers(last.value.rows))
      else (Aging(NoData(id, p.untilText(until), p.Now())), Nothing)
    case Fetching(last) => (Fetched(Handed(p, id), p.fetch(id).cooldownUntil, last), Allocates(p.fetch(id).rows))
    case Fetched(block, until, last) =>
      if block.status == "ok" then (Cooling(block, until), Keeps(block))
      else if last.Some? then (Cooling(Stale(last.value, block.msg), until), Retiers(last.value.rows))
      else (Cooling(block, until), Nothing)
    case Cooling(block, until) => (Aging(block), if until.Some? then Cools(until.value) else Nothing)
    case Aging(block) => (Storing(Aged(block, p)), Nothing)
    case Storing(block) => (Done, Serves(block))
    case Done => (Done, Nothing)
  }

  function Apply(s: State, e: Effect, id: string, number: nat): State
  {
    match e
    case Nothing => s
    case Allocates(rows) => s.(rows := s.rows[Ref(id, number) := rows], fetched := s.fetched + {id})
    case Retiers(ref) => s.(rows := RetierAt(s.rows, ref))
    case Keeps(block) => s.(lastGood := s.lastGood[id := block])
    case Cools(until) => s.(cooldowns := s.cooldowns[id := until])
    case Serves(block) => s.(results := s.results[id := block])
  }

  /** The next step of id's goroutine; one that is done, or does not exist, changes nothing. */
  function Step(s: State, p: Poll, id: string): State
  {
    if id !in s.locals then s
    else
      var move := Move(s.locals[id], Deadline(Lookup(s.cooldowns, id)), Lookup(s.lastGood, id), p, id);
      Apply(s, move.1, id, p.number).(locals := s.locals[id := move.0])
  }

  /** A schedule names the goroutine that moves, step by step. */
  function Run(s: State, p: Poll, schedule: seq<string>): State
    decreases |schedule|
  {
    if schedule == [] then s else Run(Step(s, p, schedule[0]), p, schedule[1..])
  }

  predicate AllDone(s: State)
  {
    forall id :: id in s.locals ==> s.locals[id] == Done
  }

  // --- what belongs to one provider ---

  datatype Cell = Cell(cooldown: Option<int>, good: Option<Block>, rows: map<Ref, seq<Row>>,
                       result: Option<Block>, fetched: bool, local: Option<Local>)

  function Owned(rows: map<Ref, seq<Row>>, id: string): map<Ref, seq<Row>>
  {
    map r | r in rows && r.owner == id :: rows[r]
  }

  function CellOf(s: State, id: string): Cell
  {
    Cell(Lookup(s.cooldowns, id), Lookup(s.lastGood, id), Owned(s.rows, id), Lookup(s.results, id), id in s.fetched,
         Lookup(s.locals, id))
  }

  /** A block's array belongs to the provider it is kept for. */
  predicate OwnBlock(b: Option<Block>, id: string)
  {
    b.Some? && b.value.rows.Some? ==> b.value.rows.value.owner == id
  }

  predicate OwnLocal(local: Local, id: string)
  {
    match local
    case Cooled(_, last) => OwnBlock(last, id)
    case Fetching(last) => OwnBlock(last, id)
    case Fetched(block, _, last) => OwnBlock(Some(block), id) && OwnBlock(last, id)
    case Cooling(block, _) => OwnBlock(Some(block), id)
    case Aging(block) => OwnBlock(Some(block), id)
    case Storing(block) => OwnBlock(Some(block), id)
    case _ => true
  }

  predicate OwnCell(c: Cell, id: string)
  {
    OwnBlock(c.good, id) && OwnBlock(c.result, id) && (c.local.Some? ==> OwnLocal(c.local.value, id))
  }

  /** No block is kept under one provider's id while its rows belong to another. */
  ghost predicate Separate(s: State)
  {
    forall id :: OwnCell(CellOf(s, id), id)
  }

  function ApplyCell(c: Cell, e: Effect, id: string, number: nat): Cell
  {
    match e
    case Nothing => c
    case Allocates(rows) => c.(rows := c.rows[Ref(id, number) := rows], fetched := true)
    case Retiers(ref) => c.(rows := RetierAt(c.rows, ref))
    case Keeps(block) => c.(good := Some(block))
    case Cools(until) => c.(cooldown := Some(until))
    case Serves(block) => c.(result := Some(block))
  }

  /** The same step on one provider's own data. */
  function StepCell(c: Cell, p: Poll, id: string): Cell
  {
    if c.local.None? then c
    else
      var move := Move(c.local.value, Deadline(c.cooldown), c.good, p, id);
      ApplyCell(c, move.1, id, p.number).(local := Some(move.0))
  }

  lemma OwnedRetier(rows: map<Ref, seq<Row>>, ref: Option<Ref>, id: string, owner: string)
    requires ref.Some? ==> ref.value.owner == owner
    ensures id == owner ==> Owned(RetierAt(rows, ref), id) == RetierAt(Owned(rows, id), ref)
    ensures id != owner ==> Owned(RetierAt(rows, ref), id) == Owned(rows, id)
  {
  }

  lemma OwnedPut(rows: map<Ref, seq<Row>>, ref: Ref, given: seq<Row>, id: string)
    ensures id == ref.owner ==> Owned(rows[ref := given], id) == Owned(rows, id)[ref := given]
    ensures id != ref.owner ==> Owned(rows[ref := given], id) == Owned(rows, id)
  {
  }

  predicate OwnEffect(e: Effect, id: string)
  {
    match e
    case Retiers(ref) => ref.Some? ==> ref.value.owner == id
    case Keeps(block) => OwnBlock(Some(block), id)
    case Serves(block) => OwnBlock(Some(block), id)
    case _ => true
  }

  lemma MoveOwns(local: Local, deadline: int, good: Option<Block>, p: Poll, id: string)
    requires OwnLocal(local, id) && OwnBlock(good, id)
    ensures var move := Move(local, deadline, good, p, id); OwnLocal(move.0, id) && OwnEffect(move.1, id)
  {
  }

  lemma ApplyIsLocal(s: State, e: Effect, mover: string, number: nat, id: string)
    requires OwnEffect(e, mover)
    ensures CellOf(Apply(s, e, mover, number), id)
            == if id == mover then ApplyCell(CellOf(s, id), e, id, number) else CellOf(s, id)
  {
    hide RetierAt, Owned;
    match e
    case Allocates(rows) => OwnedPut(s.rows, Ref(mover, number), rows, id);
    case Retiers(ref) => OwnedRetier(s.rows, ref, id, mover);
    case _ =>
  }

  lemma ApplyKeepsLocals(s: State, e: Effect, id: string, number: nat)
    ensures Apply(s, e, id, number).locals == s.locals
  {
  }

  /** A step is a step on the mover's own data and leaves every other provider's data alone. */
  lemma StepIsLocal(s: State, p: Poll, mover: string, id: string)
    requires OwnCell(CellOf(s, mover), mover)
    ensures CellOf(Step(s, p, mover), id)
            == if id == mover then StepCell(CellOf(s, id), p, id) else CellOf(s, id)
    ensures OwnCell(CellOf(Step(s, p, mover), mover), mover)
  {
    hide Owned, Move, OwnBlock, OwnLocal, Apply;
    if mover in s.locals {
      var local, cell := s.locals[mover], CellOf(s, mover);
      var move := Move(local, Deadline(cell.cooldown), cell.good, p, mover);
      MoveOwns(local, Deadline(cell.cooldown), cell.good, p, mover);
      ApplyKeepsLocals(s, move.1, mover, p.number);
      ApplyIsLocal(s, move.1, mover, p.number, id);
      ApplyIsLocal(s, move.1, mover, p.number, mover);
    }
  }

  // --- the schedule does not matter ---

  /** n steps of one goroutine on its own. */
  function Solo(c: Cell, p: Poll, id: string, n: nat): Cell
    decreases n
  {
    if n == 0 then c else Solo(StepCell(c, p, id), p, id, n - 1)
  }

  function Turns(schedule: seq<string>, id: string): nat
  {
    if schedule == [] then 0 else (if schedule[0] == id then 1 else 0) + Turns(schedule[1..], id)
  }

  /** However the goroutines interleave, each provider's data is what its own goroutine makes of it alone. */
  lemma {:induction false} RunIsSolo(s: State, p: Poll, schedule: seq<string>, id: string)
    requires Separate(s)
    ensures CellOf(Run(s, p, schedule), id) == Solo(CellOf(s, id), p, id, Turns(schedule, id))
    ensures Separate(Run(s, p, schedule))
    decreases |schedule|
  {
    hide CellOf, StepCell, Step, OwnCell;
    if schedule != [] {
      var next := Step(s, p, schedule[0]);
      forall other
        ensures CellOf(next, other)
                == if other == schedule[0] then StepCell(CellOf(s, other), p, other) else CellOf(s, other)
        ensures OwnCell(CellOf(next, other), other)
      {
        StepIsLocal(s, p, schedule[0], other);
      }
      RunIsSolo(next, p, schedule[1..], id);
    }
  }

  predicate CellDone(c: Cell)
  {
    c.local == None || c.local == Some(Done)
  }

  /** Once done, further turns change nothing; so any two numbers of turns that reach the end agree. */
  lemma {:induction false} SoloDone(c: Cell, p: Poll, id: string, m: nat, n: nat)
    requires m <= n && CellDone(Solo(c, p, id, m))
    ensures Solo(c, p, id, n) == Solo(c, p, id, m)
    decreases n
  {
    if m > 0 {
      SoloDone(StepCell(c, p, id), p, id, m - 1, n - 1);
    } else if n > 0 {
      assert StepCell(c, p, id) == c;
      SoloDone(c, p, id, 0, n - 1);
    }
  }

  lemma {:induction false} RunKeepsIds(s: State, p: Poll, schedule: seq<string>)
    ensures Run(s, p, schedule).locals.Keys == s.locals.Keys
    decreases |schedule|
  {
    hide Move;
    if schedule != [] {
      RunKeepsIds(Step(s, p, schedule[0]), p, schedule[1..]);
    }
  }

  lemma SameMaps<V>(a: map<string, V>, b: map<string, V>)
    requires forall id :: Lookup(a, id) == Lookup(b, id)
    ensures a == b
  {
    forall id
      ensures id in a <==> id in b
      ensures id in a && id in b ==> a[id] == b[id]
    {
      assert Lookup(a, id) == Lookup(b, id);
    }
  }

  lemma SameRows(a: map<Ref, seq<Row>>, b: map<Ref, seq<Row>>)
    requires forall id :: Owned(a, id) == Owned(b, id)
    ensures a == b
  {
    forall r: Ref
      ensures r in a <==> r in b
      ensures r in a && r in b ==> a[r] == b[r]
    {
      assert Owned(a, r.owner) == Owned(b, r.owner);
      assert r in Owned(a, r.owner) <==> r in a;
      assert r in Owned(b, r.owner) <==> r in b;
    }
  }

  /** Two states that agree on every provider's data, all arrays belonging to some provider, are the same state. */
  lemma SameCells(a: State, b: State)
    requires forall id :: CellOf(a, id) == CellOf(b, id)
    ensures a == b
  {
    forall id
      ensures Lookup(a.cooldowns, id) == Lookup(b.cooldowns, id) && Lookup(a.lastGood, id) == Lookup(b.lastGood, id)
      ensures Lookup(a.results, id) == Lookup(b.results, id) && Lookup(a.locals, id) == Lookup(b.locals, id)
      ensures (id in a.fetched) == (id in b.fetched) && Owned(a.rows, id) == Owned(b.rows, id)
    {
      assert CellOf(a, id) == CellOf(b, id);
    }
    SameMaps(a.cooldowns, b.cooldowns);
    SameMaps(a.lastGood, b.lastGood);
    SameMaps(a.results, b.results);
    SameMaps(a.locals, b.locals);
    SameRows(a.rows, b.rows);
    assert a.fetched == b.fetched;
  }

  /** Two complete interleavings of the same poll end in the same state. */
  lemma PollIsIndependent(s: State, p: Poll, one: seq<string>, other: seq<string>)
    requires Separate(s) && AllDone(Run(s, p, one)) && AllDone(Run(s, p, other))
    ensures Run(s, p, one) == Run(s, p, other)
  {
    forall id
      ensures CellOf(Run(s, p, one), id) == CellOf(Run(s, p, other), id)
    {
      RunIsSolo(s, p, one, id);
      RunIsSolo(s, p, other, id);
      var m, n := Turns(one, id), Turns(other, id);
      if m <= n {
        SoloDone(CellOf(s, id), p, id, m, n);
      } else {
        SoloDone(CellOf(s, id), p, id, n, m);
      }
    }
    SameCells(Run(s, p, one), Run(s, p, other));
  }
}
