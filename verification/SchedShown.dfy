/** What a poll puts on display: the same blocks in the same order, whatever the goroutines and the configuration do. */
module SchedShown {
  import opened Bytes
  import opened Sorting
  import opened SchedPoll
  import opened SchedRuns
  import opened Advise
  import AdviseRank
  import SchedOrder
  import SchedSafety

  /** The block a poll collected for a provider, with the rows of its array. */
  function ShownOf(s: State, id: string): seq<Provider>
  {
    if id in s.results then [Provider(s.results[id], SchedSafety.RowsOf(s.rows, s.results[id].rows))] else []
  }

  /** The blocks of a poll in fetcher order. */
  function Shown(s: State, ids: seq<string>): seq<Provider>
  {
    if ids == [] then [] else ShownOf(s, ids[0]) + Shown(s, ids[1..])
  }

  lemma Assoc<T>(a: seq<T>, b: seq<T>, c: seq<T>)
    ensures a + (b + c) == a + b + c
  {
  }

  /** A poll with what follows it: the blocks collected and put into display order. */
  method PollAndOrder(scheduler: Scheduler, p: Poll, userOrder: seq<string>) returns (shown: seq<Provider>)
    modifies scheduler
    ensures scheduler.View() == WholeAll(Fresh(old(scheduler.View())), p, p.ids)
    ensures shown == SchedOrder.OrderProviders(Shown(scheduler.View(), p.ids), userOrder, p.nowNs)
  {
    hide ShownOf, WholeAll, SchedOrder.OrderProviders;
    var _ := scheduler.PollOnce(p);
    var polled := scheduler.View();
    var list := [];
    for i := 0 to |p.ids|
      invariant scheduler.View() == polled
      invariant list + Shown(polled, p.ids[i..]) == Shown(polled, p.ids)
    {
      assert p.ids[i..][1..] == p.ids[i + 1..];
      Assoc(list, ShownOf(polled, p.ids[i]), Shown(polled, p.ids[i + 1..]));
      list := list + ShownOf(polled, p.ids[i]);
    }
    assert list + [] == list;
    shown := SchedOrder.OrderProviders(list, userOrder, p.nowNs);
  }

  lemma {:induction false} ShownAppend(s: State, a: seq<string>, b: seq<string>)
    ensures Shown(s, a + b) == Shown(s, a) + Shown(s, b)
    decreases |a|
  {
    hide ShownOf;
    if a == [] {
      assert a + b == b;
    } else {
      ShownAppend(s, a[1..], b);
      assert (a + b)[1..] == a[1..] + b;
      Assoc(ShownOf(s, a[0]), Shown(s, a[1..]), Shown(s, b));
    }
  }

  lemma MiddlePart<T>(a: seq<T>, x: seq<T>, b: seq<T>)
    ensures multiset(a + (x + b)) == multiset(x + (a + b))
    ensures multiset(x + (a + b)) == multiset(x) + multiset(a + b)
  {
  }

  /** Fetchers in another order collect the same blocks. */
  lemma {:induction false} ShownPermute(s: State, a: seq<string>, b: seq<string>)
    requires multiset(a) == multiset(b)
    ensures multiset(Shown(s, a)) == multiset(Shown(s, b))
    decreases |a|
  {
    hide ShownOf;
    SameLength(a, b);
    if a != [] {
      assert a[0] in multiset(b);
      var j :| 0 <= j < |b| && b[j] == a[0];
      var before, after := b[..j], b[j + 1..];
      assert b == before + ([a[0]] + after);
      DropFirst(a);
      SchedOrder.MiddleElement(before, a[0], after);
      ShownPermute(s, a[1..], before + after);
      ShownAppend(s, before, after);
      ShownAppend(s, before, [a[0]] + after);
      assert ([a[0]] + after)[1..] == after;
      MiddlePart(Shown(s, before), ShownOf(s, a[0]), Shown(s, after));
    } else {
      assert b == [];
    }
  }

  /** What a goroutine makes of its provider's data does not depend on the other fetchers. */
  lemma OwnOutcome(c: Cell, p: Poll, q: Poll, id: string)
    requires q == p.(ids := q.ids)
    ensures Outcome(c, p, id) == Outcome(c, q, id)
  {
    hide RetierAt, Deadline;
  }

  /** Two polls that differ only in the order of their fetchers, each under an interleaving of its own, end in one
      state. */
  lemma SameEnd(s: State, p: Poll, q: Poll, ps: seq<string>, qs: seq<string>)
    requires Separate(s) && q == p.(ids := q.ids) && multiset(p.ids) == multiset(q.ids)
    requires Completes(s, p, ps) && Completes(s, q, qs)
    ensures End(Run(Begin(s, p), p, ps)) == End(Run(Begin(s, q), q, qs))
  {
    var x, y := End(Run(Begin(s, p), p, ps)), End(Run(Begin(s, q), q, qs));
    forall id
      ensures CellOf(x, id) == CellOf(y, id)
    {
      EveryInterleaving(s, p, ps, id);
      EveryInterleaving(s, q, qs, id);
      assert id in p.ids <==> id in multiset(p.ids);
      assert id in q.ids <==> id in multiset(q.ids);
      OwnOutcome(CellOf(s, id).(result := None, fetched := false, local := None), p, q, id);
      hide Outcome, Run, Owned, Separate, Completes;
    }
    SameCells(x, y);
  }

  /** The display of a poll, with distinct known ids: the same for every interleaving of its goroutines and every order
      of its fetchers. */
  lemma ShownIsCanonical(s: State, p: Poll, q: Poll, ps: seq<string>, qs: seq<string>, userOrder: seq<string>)
    requires Separate(s) && q == p.(ids := q.ids) && multiset(p.ids) == multiset(q.ids)
    requires Completes(s, p, ps) && Completes(s, q, qs)
    requires var shown := Shown(End(Run(Begin(s, p), p, ps)), p.ids);
             AdviseRank.DistinctIds(shown) && SchedOrder.Known(shown, SchedOrder.Reference(userOrder))
    ensures SchedOrder.OrderProviders(Shown(End(Run(Begin(s, p), p, ps)), p.ids), userOrder, p.nowNs)
            == SchedOrder.OrderProviders(Shown(End(Run(Begin(s, q), q, qs)), q.ids), userOrder, q.nowNs)
  {
    hide Separate, Completes, Run, Shown, SchedOrder.OrderProviders, SchedOrder.Known, AdviseRank.DistinctIds,
         SchedOrder.Reference;
    SameEnd(s, p, q, ps, qs);
    var ended := End(Run(Begin(s, p), p, ps));
    ShownPermute(ended, p.ids, q.ids);
    SchedOrder.OrderIsCanonical(Shown(ended, p.ids), Shown(ended, q.ids), userOrder, p.nowNs);
  }
}
