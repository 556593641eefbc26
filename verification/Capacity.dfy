// Largest-remainder split of an engine's slots over its routes.
module Capacity {
  import opened Wrappers
  import opened Sorting

  datatype Route = Route(alias: string, engineId: string, model: string, weight: nat, manual: bool, interactive: bool)

  /** What every constructed route satisfies. */
  ghost predicate ValidRoutes(routes: seq<Route>) {
    forall r :: r in routes ==> 0 < r.weight
  }

  ghost predicate DistinctAliases(routes: seq<Route>) {
    forall i, j :: 0 <= i < j < |routes| ==> routes[i].alias != routes[j].alias
  }

  const Weight: Route -> int := (r: Route) => r.weight

  function TotalWeight(routes: seq<Route>): int {
    Total(Weight, routes)
  }

  function Floor(capacity: nat, total: int, r: Route): nat
    requires 0 < total
  {
    capacity * r.weight / total
  }

  function Remainder(capacity: nat, total: int, r: Route): nat
    requires 0 < total
  {
    capacity * r.weight % total
  }

  // The order in which routes get a left-over slot: larger remainder first, then alias.
  function RankLeq(capacity: nat, total: int): (Route, Route) -> bool
    requires 0 < total
  {
    (q: Route, r: Route) =>
      var x, y := Remainder(capacity, total, q), Remainder(capacity, total, r);
      x > y || (x == y && StringLeq(q.alias, r.alias))
  }

  lemma RankIsOrder(capacity: nat, total: int)
    requires 0 < total
    ensures IsOrder(RankLeq(capacity, total))
  {
    var leq := RankLeq(capacity, total);
    forall q, r ensures leq(q, r) || leq(r, q) {
      StringLeqTotal(q.alias, r.alias);
    }
    forall q, r, s | leq(q, r) && leq(r, s) ensures leq(q, s) {
      if Remainder(capacity, total, q) == Remainder(capacity, total, s) {
        StringLeqTransitive(q.alias, r.alias, s.alias);
      }
    }
  }

  // ---- the split as a function of the set of routes -----------------------------------

  function Ahead(capacity: nat, total: int, r: Route): Route -> int
    requires 0 < total
  {
    (q: Route) => if RankLeq(capacity, total)(q, r) && q.alias != r.alias then 1 else 0
  }

  /** How many routes are ranked before `r`. */
  function Rank(capacity: nat, routes: seq<Route>, r: Route): int
    requires 0 < TotalWeight(routes)
  {
    Total(Ahead(capacity, TotalWeight(routes), r), routes)
  }

  function Floors(capacity: nat, total: int): Route -> int
    requires 0 < total
  {
    (r: Route) => Floor(capacity, total, r)
  }

  // Slots left over once every route has its floor.
  function LeftOver(capacity: nat, routes: seq<Route>): int
    requires 0 < TotalWeight(routes)
  {
    capacity - Total(Floors(capacity, TotalWeight(routes)), routes)
  }

  /** The slots of one route: its floor, and one more if it ranks among the left-over slots. */
  function Share(capacity: nat, routes: seq<Route>, r: Route): int
    requires 0 < TotalWeight(routes)
  {
    Floor(capacity, TotalWeight(routes), r) + (if Rank(capacity, routes, r) < LeftOver(capacity, routes) then 1 else 0)
  }

  lemma {:induction false} WeightPositive(routes: seq<Route>)
    requires ValidRoutes(routes)
    ensures TotalWeight(routes) >= 0 && (TotalWeight(routes) == 0 <==> routes == [])
  {
    if routes != [] {
      assert routes[0] in routes;
      forall r | r in routes[1..] ensures 0 < r.weight {
        assert r in routes;
      }
      WeightPositive(routes[1..]);
    }
  }

  /** The split does not depend on the order of the routes. */
  lemma ShareOrderIndependent(capacity: nat, routes: seq<Route>, others: seq<Route>, r: Route)
    requires multiset(routes) == multiset(others) && 0 < TotalWeight(routes)
    ensures TotalWeight(others) == TotalWeight(routes)
    ensures Share(capacity, routes, r) == Share(capacity, others, r)
  {
    TotalPermuted(Weight, routes, others);
    var total := TotalWeight(routes);
    TotalPermuted(Ahead(capacity, total, r), routes, others);
    TotalPermuted(Floors(capacity, total), routes, others);
  }

  // ---- remainders -------------------------------------------------------------------------

  function Remainders(capacity: nat, total: int): Route -> int
    requires 0 < total
  {
    (r: Route) => Remainder(capacity, total, r)
  }

  const IsAny: Route -> int := (r: Route) => 1

  function Inexact(capacity: nat, total: int): Route -> int
    requires 0 < total
  {
    (r: Route) => if Remainder(capacity, total, r) == 0 then 0 else 1
  }

  lemma {:induction false} CountAll(routes: seq<Route>)
    ensures Total(IsAny, routes) == |routes|
  {
    if routes != [] { CountAll(routes[1..]); }
  }

  lemma DivMod(x: int, t: int)
    requires 0 < t
    ensures x == t * (x / t) + x % t && 0 <= x % t < t
  {
  }

  /** The remainders add up to the left-over slots, in units of the total weight. */
  lemma RemaindersTotal(capacity: nat, routes: seq<Route>)
    requires 0 < TotalWeight(routes)
    ensures var total := TotalWeight(routes);
            Total(Remainders(capacity, total), routes) == total * LeftOver(capacity, routes)
  {
    var total := TotalWeight(routes);
    var product := (r: Route) => capacity * r.weight;
    var scaled := (r: Route) => total * Floor(capacity, total, r);
    TotalScaled(Weight, product, capacity, routes);
    TotalScaled(Floors(capacity, total), scaled, total, routes);
    forall r | r in routes ensures product(r) == scaled(r) + Remainders(capacity, total)(r) {
      DivMod(capacity * r.weight, total);
    }
    TotalSum(scaled, Remainders(capacity, total), product, routes);
    var floors := Total(Floors(capacity, total), routes);
    assert total * (capacity - floors) == total * capacity - total * floors;
  }

  // `total` for each route with an inexact share.
  function Ceilings(capacity: nat, total: int): Route -> int
    requires 0 < total
  {
    (r: Route) => if Remainder(capacity, total, r) == 0 then 0 else total
  }

  lemma RemaindersBelowCeilings(capacity: nat, total: int, routes: seq<Route>)
    requires 0 < total
    ensures Total(Remainders(capacity, total), routes) <= Total(Ceilings(capacity, total), routes)
    ensures Total(Ceilings(capacity, total), routes) == total * Total(Inexact(capacity, total), routes)
  {
    forall r | r in routes ensures Remainders(capacity, total)(r) <= Ceilings(capacity, total)(r) {
      DivMod(capacity * r.weight, total);
    }
    TotalMonotone(Remainders(capacity, total), Ceilings(capacity, total), routes);
    CeilingsScaled(capacity, total, routes);
  }

  lemma CeilingsScaled(capacity: nat, total: int, routes: seq<Route>)
    requires 0 < total
    ensures Total(Ceilings(capacity, total), routes) == total * Total(Inexact(capacity, total), routes)
  {
    forall r | r in routes ensures Ceilings(capacity, total)(r) == total * Inexact(capacity, total)(r) {
      if Remainder(capacity, total, r) == 0 {
        assert total * 0 == 0;
      } else {
        assert total * 1 == total;
      }
    }
    TotalScaled(Inexact(capacity, total), Ceilings(capacity, total), total, routes);
  }

  const Zero: Route -> int := (r: Route) => 0

  lemma {:induction false} ZeroTotal(routes: seq<Route>)
    ensures Total(Zero, routes) == 0
  {
    if routes != [] { ZeroTotal(routes[1..]); }
  }

  lemma Between(total: int, left: int, inexact: int)
    requires 0 < total && 0 <= total * left <= total * inexact
    ensures 0 <= left <= inexact
  {
    assert left <= -1 ==> total * left <= total * -1;
    assert inexact + 1 <= left ==> total * (inexact + 1) <= total * left;
  }

  lemma StrictlyBetween(total: int, left: int, inexact: int)
    requires 0 < total && 0 < total * left < total * inexact
    ensures 0 < left < inexact
  {
    assert left <= 0 ==> total * left <= total * 0;
    assert inexact <= left ==> total * inexact <= total * left;
  }

  /** With every share exact nothing is left over; otherwise something is, and fewer slots
      than there are routes with an inexact share. */
  lemma LeftOverBounds(capacity: nat, routes: seq<Route>)
    requires 0 < TotalWeight(routes)
    ensures var total := TotalWeight(routes);
            var inexact := Total(Inexact(capacity, total), routes);
            && inexact <= |routes|
            && if inexact == 0 then LeftOver(capacity, routes) == 0 else 0 < LeftOver(capacity, routes) < inexact
  {
    var total := TotalWeight(routes);
    RemaindersTotal(capacity, routes);
    RemaindersBelowCeilings(capacity, total, routes);
    ZeroTotal(routes);
    TotalMonotone(Zero, Remainders(capacity, total), routes);
    TotalMonotone(Inexact(capacity, total), IsAny, routes);
    CountAll(routes);
    Between(total, LeftOver(capacity, routes), Total(Inexact(capacity, total), routes));
    if r :| r in routes && Inexact(capacity, total)(r) != 0 {
      InexactStrict(capacity, routes, r);
    } else {
      TotalMonotone(Inexact(capacity, total), Zero, routes);
      TotalMonotone(Zero, Inexact(capacity, total), routes);
    }
  }

  lemma InexactStrict(capacity: nat, routes: seq<Route>, r: Route)
    requires 0 < TotalWeight(routes) && r in routes && Remainder(capacity, TotalWeight(routes), r) != 0
    ensures 0 < LeftOver(capacity, routes) < Total(Inexact(capacity, TotalWeight(routes)), routes)
  {
    var total := TotalWeight(routes);
    forall q | q in routes ensures 0 <= Remainders(capacity, total)(q) <= Ceilings(capacity, total)(q) {
      DivMod(capacity * q.weight, total);
    }
    DivMod(capacity * r.weight, total);
    ZeroTotal(routes);
    TotalStrict(Zero, Remainders(capacity, total), routes, r);
    TotalStrict(Remainders(capacity, total), Ceilings(capacity, total), routes, r);
    RemaindersTotal(capacity, routes);
    CeilingsScaled(capacity, total, routes);
    StrictlyBetween(total, LeftOver(capacity, routes), Total(Inexact(capacity, total), routes));
  }

  lemma AliasUnique(routes: seq<Route>, q: Route, r: Route)
    requires DistinctAliases(routes) && q in routes && r in routes && q.alias == r.alias
    ensures q == r
  {
  }

  lemma RankNonNegative(capacity: nat, routes: seq<Route>, r: Route)
    requires 0 < TotalWeight(routes)
    ensures 0 <= Rank(capacity, routes, r)
  {
    ZeroTotal(routes);
    TotalMonotone(Zero, Ahead(capacity, TotalWeight(routes), r), routes);
  }

  // ---- what the split guarantees -------------------------------------------------------------

  lemma ExactRanksLast(capacity: nat, routes: seq<Route>, r: Route)
    requires DistinctAliases(routes) && r in routes && 0 < TotalWeight(routes)
    requires Remainder(capacity, TotalWeight(routes), r) == 0
    ensures Total(Inexact(capacity, TotalWeight(routes)), routes) <= Rank(capacity, routes, r)
  {
    var total := TotalWeight(routes);
    forall q | q in routes ensures Inexact(capacity, total)(q) <= Ahead(capacity, total, r)(q) {
      if q.alias == r.alias {
        AliasUnique(routes, q, r);
      } else if Remainder(capacity, total, q) != 0 {
        assert Remainder(capacity, total, q) > Remainder(capacity, total, r);
        assert RankLeq(capacity, total)(q, r);
      }
    }
    TotalMonotone(Inexact(capacity, total), Ahead(capacity, total, r), routes);
  }

  lemma LargerRemainderRanksFirst(capacity: nat, routes: seq<Route>, r: Route, s: Route)
    requires DistinctAliases(routes) && r in routes && s in routes && 0 < TotalWeight(routes)
    requires Remainder(capacity, TotalWeight(routes), r) > Remainder(capacity, TotalWeight(routes), s)
    ensures Rank(capacity, routes, r) <= Rank(capacity, routes, s)
  {
    var total := TotalWeight(routes);
    forall q | q in routes ensures Ahead(capacity, total, r)(q) <= Ahead(capacity, total, s)(q) {
      if q.alias == s.alias {
        AliasUnique(routes, q, s);
        assert !RankLeq(capacity, total)(s, r);
      } else if RankLeq(capacity, total)(q, r) {
        assert Remainder(capacity, total, q) > Remainder(capacity, total, s);
        assert RankLeq(capacity, total)(q, s);
      }
    }
    TotalMonotone(Ahead(capacity, total, r), Ahead(capacity, total, s), routes);
  }

  lemma FloorBounds(total: int, x: int, share: int)
    requires 0 < total && (share == x / total || (share == x / total + 1 && x % total != 0))
    ensures total * (share - 1) < x < total * (share + 1)
    ensures x % total == 0 ==> total * share == x
  {
    DivMod(x, total);
    var f := x / total;
    assert total * (f + 1) == total * f + total && total * (f - 1) == total * f - total
        && total * (f + 2) == total * f + 2 * total;
  }

  /** Every share is the floor or the ceiling of capacity * weight / total; a route whose
      share is exact gets no extra slot. */
  lemma ShareIsFloorOrCeiling(capacity: nat, routes: seq<Route>, r: Route)
    requires DistinctAliases(routes) && r in routes && 0 < TotalWeight(routes)
    ensures var total := TotalWeight(routes);
            var share := Share(capacity, routes, r);
            && total * (share - 1) < capacity * r.weight < total * (share + 1)
            && (capacity * r.weight % total == 0 ==> total * share == capacity * r.weight)
  {
    if Remainder(capacity, TotalWeight(routes), r) == 0 {
      LeftOverBounds(capacity, routes);
      ExactRanksLast(capacity, routes, r);
    }
    FloorBounds(TotalWeight(routes), capacity * r.weight, Share(capacity, routes, r));
  }

  lemma HeavierFloor(capacity: nat, total: int, heavy: nat, light: nat)
    requires 0 < total && light < heavy && 0 < capacity
    ensures var x, y := capacity * heavy, capacity * light;
            x / total > y / total || (x / total == y / total && x % total > y % total)
  {
    var x, y := capacity * heavy, capacity * light;
    DivMod(x, total);
    DivMod(y, total);
    assert x == y + capacity * (heavy - light);
    assert capacity * (heavy - light) > 0;
    var p, q := x / total, y / total;
    assert q >= p + 1 ==> total * q >= total * (p + 1);
    assert total * (p + 1) == total * p + total;
  }

  /** A heavier route never gets fewer slots than a lighter one. */
  lemma HeavierGetsNoLess(capacity: nat, routes: seq<Route>, r: Route, s: Route)
    requires DistinctAliases(routes) && r in routes && s in routes && s.weight < r.weight
    requires 0 < TotalWeight(routes)
    ensures Share(capacity, routes, s) <= Share(capacity, routes, r)
  {
    if capacity == 0 {
      ZeroCapacity(routes);
      RankNonNegative(capacity, routes, s);
    } else {
      HeavierFloor(capacity, TotalWeight(routes), r.weight, s.weight);
      if Floor(capacity, TotalWeight(routes), r) == Floor(capacity, TotalWeight(routes), s) {
        LargerRemainderRanksFirst(capacity, routes, r, s);
      }
    }
  }

  lemma ZeroCapacity(routes: seq<Route>)
    requires 0 < TotalWeight(routes)
    ensures LeftOver(0, routes) == 0
    ensures forall r :: r in routes ==> Floor(0, TotalWeight(routes), r) == 0
  {
    var total := TotalWeight(routes);
    forall r | r in routes ensures Floors(0, total)(r) == 0 {
      DivMod(0 * r.weight, total);
    }
    ZeroTotal(routes);
    TotalMonotone(Floors(0, total), Zero, routes);
    TotalMonotone(Zero, Floors(0, total), routes);
  }

  // ---- the shares add up ------------------------------------------------------------------------

  function Shares(capacity: nat, routes: seq<Route>): Route -> int
    requires 0 < TotalWeight(routes)
  {
    (r: Route) => Share(capacity, routes, r)
  }

  function Extras(capacity: nat, routes: seq<Route>): Route -> int
    requires 0 < TotalWeight(routes)
  {
    (r: Route) => if Rank(capacity, routes, r) < LeftOver(capacity, routes) then 1 else 0
  }

  /** In rank order, a route's rank is its position. */
  lemma RankIsPosition(capacity: nat, routes: seq<Route>, ranked: seq<Route>, i: nat)
    requires 0 < TotalWeight(routes) && multiset(ranked) == multiset(routes)
    requires SortedBy(RankLeq(capacity, TotalWeight(routes)), ranked) && DistinctAliases(ranked)
    requires i < |ranked|
    ensures Rank(capacity, routes, ranked[i]) == i
  {
    var total := TotalWeight(routes);
    var f := Ahead(capacity, total, ranked[i]);
    TotalPermuted(f, routes, ranked);
    forall j | 0 <= j < |ranked| ensures f(ranked[j]) == if j < i then 1 else 0 {
      if j < i {
        assert RankLeq(capacity, total)(ranked[j], ranked[i]);
      } else if i < j {
        assert RankLeq(capacity, total)(ranked[i], ranked[j]);
        StringLeqTotal(ranked[i].alias, ranked[j].alias);
      }
    }
    TotalPrefix(f, ranked, i);
  }

  lemma TotalPrefix(f: Route -> int, s: seq<Route>, k: nat)
    requires k <= |s| && forall j :: 0 <= j < |s| ==> f(s[j]) == if j < k then 1 else 0
    ensures Total(f, s) == k
  {
    assert s == s[..k] + s[k..];
    TotalAppend(f, s[..k], s[k..]);
    TotalConstant(f, 1, s[..k]);
    TotalConstant(f, 0, s[k..]);
  }

  lemma {:induction false} TotalConstant(f: Route -> int, c: int, s: seq<Route>)
    requires forall q :: q in s ==> f(q) == c
    ensures Total(f, s) == c * |s|
  {
    if s != [] {
      assert s[0] in s;
      TotalConstant(f, c, s[1..]);
    }
  }

  lemma {:induction false} DistinctPermuted(routes: seq<Route>, others: seq<Route>)
    requires DistinctAliases(routes) && multiset(routes) == multiset(others)
    ensures DistinctAliases(others)
  {
    forall i, j | 0 <= i < j < |others| ensures others[i].alias != others[j].alias {
      if others[i].alias == others[j].alias {
        assert others[i] in multiset(others) && others[j] in multiset(others);
        AliasUnique(routes, others[i], others[j]);
        OccursTwice(others, i, j);
        OccursOnce(routes, others[i]);
      }
    }
  }

  /** The split hands out the whole capacity. */
  lemma SharesAddUp(capacity: nat, routes: seq<Route>)
    requires DistinctAliases(routes) && 0 < TotalWeight(routes)
    ensures Total(Shares(capacity, routes), routes) == capacity
  {
    var total := TotalWeight(routes);
    var ranked := Sort(RankLeq(capacity, total), routes);
    RankedFacts(capacity, routes, ranked);
    var left := LeftOver(capacity, routes);
    LeftOverBounds(capacity, routes);
    var f := Extras(capacity, routes);
    forall j | 0 <= j < |ranked| ensures f(ranked[j]) == if j < left then 1 else 0 {
    }
    TotalPrefix(f, ranked, left);
    TotalPermuted(f, ranked, routes);
    TotalSum(Floors(capacity, total), f, Shares(capacity, routes), routes);
  }

  // ---- the loop -----------------------------------------------------------------------------------

  function Aliases(routes: seq<Route>): set<string> {
    set r | r in routes :: r.alias
  }

  /** The floor of every route, and what is left over. */
  method HandOutFloors(capacity: nat, routes: seq<Route>) returns (base: map<string, nat>, remainder: int)
    requires DistinctAliases(routes) && 0 < TotalWeight(routes)
    ensures base.Keys == Aliases(routes)
    ensures forall q :: q in routes ==> base[q.alias] == Floor(capacity, TotalWeight(routes), q)
    ensures remainder == LeftOver(capacity, routes)
  {
    var total := TotalWeight(routes);
    base, remainder := map[], capacity;
    for i := 0 to |routes|
      invariant base.Keys == Aliases(routes[..i])
      invariant forall j :: 0 <= j < i ==> routes[j] in routes[..i] && base[routes[j].alias] == Floor(capacity, total, routes[j])
      invariant remainder == capacity - Total(Floors(capacity, total), routes[..i])
    {
      var floor := Floor(capacity, total, routes[i]);
      base := base[routes[i].alias := floor];
      remainder := remainder - floor;
      TotalAppend(Floors(capacity, total), routes[..i], [routes[i]]);
      assert routes[..i + 1] == routes[..i] + [routes[i]];
    }
    assert routes[..|routes|] == routes;
  }

  lemma RankedFacts(capacity: nat, routes: seq<Route>, ranked: seq<Route>)
    requires DistinctAliases(routes) && 0 < TotalWeight(routes)
    requires ranked == Sort(RankLeq(capacity, TotalWeight(routes)), routes)
    ensures DistinctAliases(ranked) && multiset(ranked) == multiset(routes) && |ranked| == |routes|
    ensures forall i :: 0 <= i < |ranked| ==> ranked[i] in routes && Rank(capacity, routes, ranked[i]) == i
    ensures forall q :: q in routes ==> q in ranked
  {
    var leq := RankLeq(capacity, TotalWeight(routes));
    RankIsOrder(capacity, TotalWeight(routes));
    SortSorted(leq, routes);
    SortPermutes(leq, routes);
    DistinctPermuted(routes, ranked);
    forall i | 0 <= i < |ranked| ensures ranked[i] in routes && Rank(capacity, routes, ranked[i]) == i {
      assert ranked[i] in multiset(ranked);
      RankIsPosition(capacity, routes, ranked, i);
    }
    forall q | q in routes ensures q in ranked {
      assert q in multiset(routes);
    }
  }

  /** One extra slot for each of the first `count` routes. */
  method HandOutExtras(base: map<string, nat>, ranked: seq<Route>, count: nat) returns (shares: map<string, nat>)
    requires DistinctAliases(ranked) && count <= |ranked|
    requires forall j :: 0 <= j < |ranked| ==> ranked[j].alias in base
    ensures shares.Keys == base.Keys
    ensures forall j :: 0 <= j < |ranked| ==>
              shares[ranked[j].alias] == base[ranked[j].alias] + (if j < count then 1 else 0)
  {
    shares := base;
    for i := 0 to count
      invariant shares.Keys == base.Keys
      invariant forall j :: 0 <= j < |ranked| ==>
        shares[ranked[j].alias] == base[ranked[j].alias] + (if j < i then 1 else 0)
    {
      shares := shares[ranked[i].alias := shares[ranked[i].alias] + 1];
    }
  }

  /** The split by sorting: floors first, then one extra slot for each of the first
      left-over routes in rank order. A negative capacity is an error. */
  method WeightedSplit(capacity: int, routes: seq<Route>) returns (r: Option<map<string, nat>>)
    requires ValidRoutes(routes) && DistinctAliases(routes)
    ensures r.None? <==> capacity < 0
    ensures r.Some? ==> r.value.Keys == Aliases(routes)
    ensures r.Some? ==> forall q :: q in routes ==> 0 < TotalWeight(routes) && r.value[q.alias] == Share(capacity, routes, q)
  {
    if capacity < 0 {
      return None;
    }
    WeightPositive(routes);
    if routes == [] {
      return Some(map[]);
    }
    var base, remainder := HandOutFloors(capacity, routes);
    var total := TotalWeight(routes);
    var ranked := Sort(RankLeq(capacity, total), routes);
    RankedFacts(capacity, routes, ranked);
    LeftOverBounds(capacity, routes);
    var shares := HandOutExtras(base, ranked, remainder);
    return Some(shares);
  }
}
