/** The one display order of a snapshot: kinds first, plans by score, the rest as the user arranged them. */
module SchedOrder {
  import opened Bytes
  import opened Sorting
  import opened Advise
  import opened AdviseRank

  const CANONICAL: seq<string> :=
    ["claude", "codex", "openrouter:main", "openrouter:fallback", "groq", "opencode:go"]

  const HORIZON := 4 * HOUR

  function KindRank(kind: string): nat
  {
    if kind == "plan" then 0 else if kind == "credit" then 1 else if kind == "free" then 2 else 3
  }

  function LastIndex(list: seq<string>, id: string): (r: Option<nat>)
    ensures r.Some? ==> r.value < |list| && list[r.value] == id
    ensures r.None? ==> id !in list
  {
    if list == [] then None
    else if list[|list| - 1] == id then Some(|list| - 1)
    else LastIndex(list[..|list| - 1], id)
  }

  /** The last place of an id in a list, or the list's length. */
  function PlaceIn(list: seq<string>, id: string): (r: nat)
    ensures r <= |list|
    ensures r < |list| ==> list[r] == id
    ensures id in list ==> r < |list|
  {
    var n := LastIndex(list, id);
    if n.Some? then n.value else |list|
  }

  function Reference(userOrder: seq<string>): seq<string>
  {
    if userOrder == [] then CANONICAL else userOrder
  }

  predicate IdBefore(reference: seq<string>, a: string, b: string)
  {
    PlaceIn(reference, a) < PlaceIn(reference, b)
  }

  /** Ids in the user's order, unknown ones last as they came. */
  function OrderIds(ids: seq<string>, userOrder: seq<string>): seq<string>
  {
    Sort((a, b) => IdBefore(Reference(userOrder), a, b), ids)
  }

  /** The score a plan was ranked with, if it was. */
  function ScoreOf(list: seq<Recommendation>, id: string): Option<int>
  {
    if list == [] then None
    else if list[|list| - 1].id == id then Some(list[|list| - 1].score)
    else ScoreOf(list[..|list| - 1], id)
  }

  /** Kind, then, among plans, ranked ones first and by falling score, then the user's place. */
  predicate Before(list: seq<Recommendation>, places: seq<string>, a: Provider, b: Provider)
  {
    var ka, kb := KindRank(a.block.kind), KindRank(b.block.kind);
    var sa, sb := ScoreOf(list, a.block.id), ScoreOf(list, b.block.id);
    if ka != kb then ka < kb
    else if ka == 0 && sa.Some? != sb.Some? then sa.Some?
    else if ka == 0 && sa.Some? && sa.value != sb.value then sa.value > sb.value
    else PlaceIn(places, a.block.id) < PlaceIn(places, b.block.id)
  }

  function Ids(providers: seq<Provider>): seq<string>
  {
    if providers == [] then [] else Ids(providers[..|providers| - 1]) + [providers[|providers| - 1].block.id]
  }

  lemma {:induction false} IdsAre(providers: seq<Provider>)
    ensures |Ids(providers)| == |providers|
    ensures forall i :: 0 <= i < |providers| ==> Ids(providers)[i] == providers[i].block.id
  {
    if providers != [] {
      IdsAre(providers[..|providers| - 1]);
    }
  }

  function OrderBy(list: seq<Recommendation>, places: seq<string>, providers: seq<Provider>): seq<Provider>
  {
    Sort((a, b) => Before(list, places, a, b), providers)
  }

  function OrderProviders(providers: seq<Provider>, userOrder: seq<string>, now: int): seq<Provider>
  {
    OrderBy(Rank(providers, now, HORIZON).recommendations, OrderIds(Ids(providers), userOrder), providers)
  }

  // --- what the order promises ---

  lemma BeforeIsWeakOrder(list: seq<Recommendation>, places: seq<string>)
    ensures WeakOrder((a, b) => Before(list, places, a, b))
  {
    hide KindRank, PlaceIn, ScoreOf;
  }

  /** a may stand in front of b: a kind no later; of two plans, ranked first and scoring no less; otherwise the
      user's order. */
  predicate MayPrecede(list: seq<Recommendation>, places: seq<string>, a: Provider, b: Provider)
  {
    && KindRank(a.block.kind) <= KindRank(b.block.kind)
    && (a.block.kind == b.block.kind == "plan" && ScoreOf(list, b.block.id).Some? ==>
          (ScoreOf(list, a.block.id).Some?
           && ScoreOf(list, a.block.id).value >= ScoreOf(list, b.block.id).value))
    && (KindRank(a.block.kind) == KindRank(b.block.kind)
        && (a.block.kind == "plan" ==> ScoreOf(list, a.block.id) == ScoreOf(list, b.block.id)) ==>
          PlaceIn(places, a.block.id) <= PlaceIn(places, b.block.id))
  }

  lemma NotBeforePrecedes(list: seq<Recommendation>, places: seq<string>, a: Provider, b: Provider)
    requires !Before(list, places, b, a)
    ensures MayPrecede(list, places, a, b)
  {
    hide PlaceIn, ScoreOf;
  }

  /** The display order is a permutation in which every block may precede those after it. */
  lemma OrderIsOrdered(providers: seq<Provider>, userOrder: seq<string>, now: int)
    ensures var r := OrderProviders(providers, userOrder, now);
            var list, places := Rank(providers, now, HORIZON).recommendations, OrderIds(Ids(providers), userOrder);
            && multiset(r) == multiset(providers)
            && forall i, j :: 0 <= i < j < |r| ==> MayPrecede(list, places, r[i], r[j])
  {
    hide Rank, OrderIds, Ids, Sort, MayPrecede, Before;
    var list, places := Rank(providers, now, HORIZON).recommendations, OrderIds(Ids(providers), userOrder);
    BeforeIsWeakOrder(list, places);
    SortSorts((a, b) => Before(list, places, a, b), providers);
    var r := OrderProviders(providers, userOrder, now);
    forall i, j | 0 <= i < j < |r|
      ensures MayPrecede(list, places, r[i], r[j])
    {
      NotBeforePrecedes(list, places, r[i], r[j]);
    }
  }

  // --- the same, told without ranks and places ---

  /** Plans, then credit, then free, then everything else. */
  predicate KindsFit(a: string, b: string)
  {
    && (b == "plan" ==> a == "plan")
    && (b == "credit" ==> a == "plan" || a == "credit")
    && (b == "free" ==> a == "plan" || a == "credit" || a == "free")
  }

  /** The same kind, or two that are neither plan, credit nor free. */
  predicate SameGroup(a: string, b: string)
  {
    a == b || (a !in ["plan", "credit", "free"] && b !in ["plan", "credit", "free"])
  }

  /** The last place of an id in a list. */
  predicate LastAt(list: seq<string>, id: string, k: nat)
  {
    k < |list| && list[k] == id && forall i :: k < i < |list| ==> list[i] != id
  }

  /** The last recommendation for an id. */
  predicate RankedAt(list: seq<Recommendation>, id: string, k: nat)
  {
    k < |list| && list[k].id == id && forall i :: k < i < |list| ==> list[i].id != id
  }

  /** a stands no later than b in a list: ids of the list come first. */
  ghost predicate PlacesFit(reference: seq<string>, a: string, b: string)
  {
    forall n: nat :: LastAt(reference, b, n) ==> exists m: nat :: m <= n && LastAt(reference, a, m)
  }

  /** a was ranked and scores no less than b, if that was ranked. */
  ghost predicate ScoresFit(list: seq<Recommendation>, a: string, b: string)
  {
    forall n: nat :: RankedAt(list, b, n) ==>
      exists m: nat :: RankedAt(list, a, m) && list[m].score >= list[n].score
  }

  lemma {:induction false} LastIndexIs(list: seq<string>, id: string)
    ensures LastIndex(list, id).Some? ==> LastAt(list, id, LastIndex(list, id).value)
  {
    if list != [] && list[|list| - 1] != id {
      LastIndexIs(list[..|list| - 1], id);
    }
  }

  lemma PlaceIs(list: seq<string>, id: string)
    ensures forall k: nat :: LastAt(list, id, k) <==> id in list && k == PlaceIn(list, id)
  {
    LastIndexIs(list, id);
  }

  lemma {:induction false} ScoreIs(list: seq<Recommendation>, id: string)
    ensures forall k: nat :: RankedAt(list, id, k) ==> ScoreOf(list, id) == Some(list[k].score)
    ensures ScoreOf(list, id).Some? ==> exists k: nat :: RankedAt(list, id, k)
  {
    if list != [] {
      var front := list[..|list| - 1];
      if list[|list| - 1].id == id {
        assert RankedAt(list, id, |list| - 1);
      } else {
        ScoreIs(front, id);
        forall k: nat
          ensures RankedAt(list, id, k) <==> RankedAt(front, id, k)
        {
        }
      }
    }
  }

  lemma MeansScores(list: seq<Recommendation>, a: string, b: string)
    requires ScoreOf(list, b).Some? ==>
               ScoreOf(list, a).Some? && ScoreOf(list, a).value >= ScoreOf(list, b).value
    ensures ScoresFit(list, a, b)
  {
    ScoreIs(list, a);
    ScoreIs(list, b);
    hide ScoreOf, RankedAt;
  }

  lemma InReference(reference: seq<string>, id: string)
    ensures PlaceIn(reference, id) < |reference| ==> id in reference && reference[PlaceIn(reference, id)] == id
    ensures id in reference ==> PlaceIn(reference, id) < |reference|
  {
  }

  lemma IdBeforeIsWeakOrder(reference: seq<string>)
    ensures WeakOrder((a, b) => IdBefore(reference, a, b))
  {
    hide PlaceIn;
  }

  /** Two ids in the user's order: their places there, or in the canonical order when there is none. */
  lemma MeansPlaces(ids: seq<string>, userOrder: seq<string>, a: string, b: string)
    requires a in ids && b in ids && PlaceIn(OrderIds(ids, userOrder), a) <= PlaceIn(OrderIds(ids, userOrder), b)
    ensures PlacesFit(if userOrder == [] then CANONICAL else userOrder, a, b)
  {
    hide Sort, PlaceIn, LastAt, CANONICAL;
    var reference, places := Reference(userOrder), OrderIds(ids, userOrder);
    IdBeforeIsWeakOrder(reference);
    SortSorts((x, y) => IdBefore(reference, x, y), ids);
    SortMembers((x, y) => IdBefore(reference, x, y), ids);
    var i, j := PlaceIn(places, a), PlaceIn(places, b);
    assert i == j || !IdBefore(reference, places[j], places[i]);
    PlaceIs(reference, a);
    PlaceIs(reference, b);
    InReference(reference, a);
    InReference(reference, b);
    InReference(places, a);
    InReference(places, b);
    assert places[i] == a && places[j] == b;
    if b in reference {
      assert LastAt(reference, a, PlaceIn(reference, a));
    }
    assert forall n: nat :: LastAt(reference, b, n) ==>
             PlaceIn(reference, a) <= n && LastAt(reference, a, PlaceIn(reference, a));
  }

  lemma IdOfMember(providers: seq<Provider>, p: Provider)
    requires p in multiset(providers)
    ensures p.block.id in Ids(providers)
  {
    hide Ids;
    IdsAre(providers);
    var k :| 0 <= k < |providers| && providers[k] == p;
    assert Ids(providers)[k] == p.block.id;
  }

  lemma SameScore(list: seq<Recommendation>, a: string, b: string)
    requires ScoresFit(list, b, a)
    requires ScoreOf(list, b).Some? ==>
               ScoreOf(list, a).Some? && ScoreOf(list, a).value >= ScoreOf(list, b).value
    ensures ScoreOf(list, a) == ScoreOf(list, b)
  {
    ScoreIs(list, a);
    ScoreIs(list, b);
    hide ScoreOf, RankedAt;
  }

  /** Of two blocks of the display, the one in front has a kind that comes no later. Of two plans it was ranked, and
      scores no less, if the other was. Otherwise, and between equal plans, its id stands no later in the user's order,
      or in the canonical one when there is none. */
  lemma DisplayMeaning(providers: seq<Provider>, userOrder: seq<string>, now: int, i: nat, j: nat)
    requires i < j < |OrderProviders(providers, userOrder, now)|
    ensures var r := OrderProviders(providers, userOrder, now);
            var list, a, b := Rank(providers, now, HORIZON).recommendations, r[i].block, r[j].block;
            && KindsFit(a.kind, b.kind)
            && (a.kind == "plan" && b.kind == "plan" ==> ScoresFit(list, a.id, b.id))
            && (SameGroup(a.kind, b.kind) && (a.kind == "plan" ==> ScoresFit(list, b.id, a.id)) ==>
                  PlacesFit(if userOrder == [] then CANONICAL else userOrder, a.id, b.id))
  {
    hide Rank, OrderIds, Sort, Before, ScoresFit, PlacesFit, PlaceIn, ScoreOf, OrderProviders, CANONICAL;
    OrderIsOrdered(providers, userOrder, now);
    var r, list := OrderProviders(providers, userOrder, now), Rank(providers, now, HORIZON).recommendations;
    var a, b := r[i].block, r[j].block;
    assert MayPrecede(list, OrderIds(Ids(providers), userOrder), r[i], r[j]);
    if a.kind == "plan" && b.kind == "plan" {
      MeansScores(list, a.id, b.id);
    }
    if SameGroup(a.kind, b.kind) && (a.kind == "plan" ==> ScoresFit(list, b.id, a.id)) {
      if a.kind == "plan" {
        SameScore(list, a.id, b.id);
      }
      assert r[i] in multiset(r) && r[j] in multiset(r);
      IdOfMember(providers, r[i]);
      IdOfMember(providers, r[j]);
      MeansPlaces(Ids(providers), userOrder, a.id, b.id);
    }
  }

  // --- the order does not depend on the order of the input ---

  lemma {:induction false} IdsAppend(a: seq<Provider>, b: seq<Provider>)
    ensures Ids(a + b) == Ids(a) + Ids(b)
  {
    if b == [] {
      assert a + b == a;
    } else {
      IdsAppend(a, b[..|b| - 1]);
      assert (a + b)[..|a + b| - 1] == a + b[..|b| - 1];
    }
  }

  lemma IdsOfOne(p: Provider)
    ensures Ids([p]) == [p.block.id]
  {
  }

  lemma MiddleElement(a: seq<string>, x: string, b: seq<string>)
    ensures multiset(a + ([x] + b)) == multiset(a + b) + multiset{x}
  {
  }

  lemma IdsRest(q: seq<Provider>, j: nat)
    requires j < |q|
    ensures multiset(Ids(q)) == multiset(Ids(Rest(q, j))) + multiset{q[j].block.id}
  {
    hide Ids;
    assert q == q[..j] + ([q[j]] + q[j + 1..]);
    IdsAppend(q[..j], [q[j]] + q[j + 1..]);
    IdsAppend([q[j]], q[j + 1..]);
    IdsAppend(q[..j], q[j + 1..]);
    IdsOfOne(q[j]);
    MiddleElement(Ids(q[..j]), q[j].block.id, Ids(q[j + 1..]));
  }

  lemma {:induction false} IdsPermute(p: seq<Provider>, q: seq<Provider>)
    requires multiset(p) == multiset(q)
    ensures multiset(Ids(p)) == multiset(Ids(q))
    decreases |p|
  {
    hide Ids, Rest;
    SameLength(p, q);
    if p != [] {
      assert p[0] in multiset(q);
      var j :| 0 <= j < |q| && q[j] == p[0];
      RestElements(p, 0);
      RestElements(q, j);
      RestLength(p, 0);
      IdsPermute(Rest(p, 0), Rest(q, j));
      IdsRest(p, 0);
      IdsRest(q, j);
    } else {
      assert q == [];
    }
  }

  predicate Known(providers: seq<Provider>, reference: seq<string>)
  {
    forall i :: 0 <= i < |providers| ==> providers[i].block.id in reference
  }

  lemma PlacesDiffer(list: seq<string>, a: string, b: string)
    requires a in list && b in list && a != b
    ensures PlaceIn(list, a) != PlaceIn(list, b)
  {
  }

  lemma IdsComparable(p: seq<Provider>, reference: seq<string>)
    requires DistinctIds(p) && Known(p, reference)
    ensures Comparable((a, b) => IdBefore(reference, a, b), Ids(p))
  {
    hide PlaceIn, Ids;
    var ids := Ids(p);
    IdsAre(p);
    forall i, j | 0 <= i < |ids| && 0 <= j < |ids| && ids[i] != ids[j]
      ensures IdBefore(reference, ids[i], ids[j]) || IdBefore(reference, ids[j], ids[i])
    {
      PlacesDiffer(reference, ids[i], ids[j]);
    }
  }

  lemma IdsCanonical(p: seq<Provider>, q: seq<Provider>, userOrder: seq<string>)
    requires multiset(p) == multiset(q) && DistinctIds(p) && Known(p, Reference(userOrder))
    ensures OrderIds(Ids(p), userOrder) == OrderIds(Ids(q), userOrder)
    ensures forall i :: 0 <= i < |p| ==> p[i].block.id in OrderIds(Ids(p), userOrder)
  {
    hide PlaceIn, Sort, Reference, Ids, IdBefore, Known, DistinctIds, CANONICAL;
    var reference, ids := Reference(userOrder), Ids(p);
    IdsAre(p);
    IdsPermute(p, q);
    IdBeforeIsWeakOrder(reference);
    IdsComparable(p, reference);
    SortCanonical((a, b) => IdBefore(reference, a, b), ids, Ids(q));
    SortMembers((a, b) => IdBefore(reference, a, b), ids);
    forall i | 0 <= i < |p|
      ensures p[i].block.id in OrderIds(ids, userOrder)
    {
      assert ids[i] in ids;
    }
  }

  lemma EitherBefore(list: seq<Recommendation>, places: seq<string>, a: Provider, b: Provider)
    requires PlaceIn(places, a.block.id) != PlaceIn(places, b.block.id)
    ensures Before(list, places, a, b) || Before(list, places, b, a)
  {
    hide PlaceIn, ScoreOf;
  }

  /** With distinct, known ids, the display order is the same whatever order the fetchers are configured in. */
  lemma OrderIsCanonical(p: seq<Provider>, q: seq<Provider>, userOrder: seq<string>, now: int)
    requires multiset(p) == multiset(q) && DistinctIds(p) && Known(p, Reference(userOrder))
    ensures OrderProviders(p, userOrder, now) == OrderProviders(q, userOrder, now)
  {
    hide Rank, OrderIds, Ids, Sort, Before, Reference, PlaceIn;
    RankIsCanonical(p, q, now, HORIZON);
    IdsCanonical(p, q, userOrder);
    var list, places := Rank(p, now, HORIZON).recommendations, OrderIds(Ids(p), userOrder);
    BeforeIsWeakOrder(list, places);
    forall i, j | 0 <= i < |p| && 0 <= j < |p| && p[i] != p[j]
      ensures Before(list, places, p[i], p[j]) || Before(list, places, p[j], p[i])
    {
      PlacesDiffer(places, p[i].block.id, p[j].block.id);
      EitherBefore(list, places, p[i], p[j]);
    }
    SortCanonical((a, b) => Before(list, places, a, b), p, q);
  }
}
