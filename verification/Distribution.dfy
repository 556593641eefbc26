// From routes and engines to per-alias slots: the distribution that is verified
// and the entries that are rendered.
module Distribution {
  import opened Wrappers
  import opened Sorting
  import opened Capacity

  datatype EngineState = ActiveState | Draining | Training | Offline
  datatype EngineHealth = Healthy | Degraded | Unhealthy | UnknownHealth

  datatype Engine = Engine(id: string, baseUrl: Option<string>, state: EngineState, health: EngineHealth,
                           maxSlots: nat, activeSlots: nat, interactiveReserved: nat)
  {
    function AvailableSlots(): nat {
      if activeSlots <= maxSlots then maxSlots - activeSlots else 0
    }

    function BorrowableSlots(): nat {
      if interactiveReserved <= AvailableSlots() then AvailableSlots() - interactiveReserved else 0
    }

    predicate Eligible() {
      state == ActiveState && (health == Healthy || health == Degraded)
    }
  }

  // ---- the routes of one engine --------------------------------------------------------

  function Filtered(keep: Route -> bool, routes: seq<Route>): (r: seq<Route>)
    ensures forall q :: q in r <==> q in routes && keep(q)
  {
    if routes == [] then []
    else if keep(routes[0]) then [routes[0]] + Filtered(keep, routes[1..])
    else Filtered(keep, routes[1..])
  }

  lemma {:induction false} FilteredAppend(keep: Route -> bool, routes: seq<Route>, more: seq<Route>)
    ensures Filtered(keep, routes + more) == Filtered(keep, routes) + Filtered(keep, more)
  {
    if routes == [] {
      assert routes + more == more;
    } else {
      assert (routes + more)[1..] == routes[1..] + more;
      FilteredAppend(keep, routes[1..], more);
    }
  }

  lemma {:induction false} FilteredPermuted(keep: Route -> bool, routes: seq<Route>, others: seq<Route>)
    requires multiset(routes) == multiset(others)
    ensures multiset(Filtered(keep, routes)) == multiset(Filtered(keep, others))
    decreases |routes|
  {
    if routes == [] {
      assert |multiset(others)| == 0;
    } else {
      var a, b := TakeOut(routes, others);
      FilteredPermuted(keep, routes[1..], a + b);
      FilteredAround(keep, a, routes[0], b);
      FilteredCons(keep, routes);
    }
  }

  lemma TakeOut(routes: seq<Route>, others: seq<Route>) returns (a: seq<Route>, b: seq<Route>)
    requires multiset(routes) == multiset(others) && routes != []
    ensures others == a + [routes[0]] + b && multiset(routes[1..]) == multiset(a + b)
  {
    assert routes[0] in multiset(others);
    var i :| 0 <= i < |others| && others[i] == routes[0];
    a, b := others[..i], others[i + 1..];
    RemovedAt(others, i);
    assert routes == [routes[0]] + routes[1..];
  }

  lemma FilteredCons(keep: Route -> bool, routes: seq<Route>)
    requires routes != []
    ensures multiset(Filtered(keep, routes))
         == multiset(Filtered(keep, routes[1..])) + (if keep(routes[0]) then multiset{routes[0]} else multiset{})
  {
  }

  lemma FilteredAround(keep: Route -> bool, a: seq<Route>, r: Route, b: seq<Route>)
    ensures multiset(Filtered(keep, a + [r] + b))
         == multiset(Filtered(keep, a + b)) + (if keep(r) then multiset{r} else multiset{})
  {
    FilteredAppend(keep, a + [r], b);
    FilteredAppend(keep, a, [r]);
    FilteredAppend(keep, a, b);
    assert Filtered(keep, [r]) == if keep(r) then [r] else [] by {
      assert [r][1..] == [];
    }
  }

  lemma {:induction false} FilteredDistinct(keep: Route -> bool, routes: seq<Route>)
    requires DistinctAliases(routes)
    ensures DistinctAliases(Filtered(keep, routes))
  {
    if routes != [] {
      FilteredDistinct(keep, routes[1..]);
      var rest := Filtered(keep, routes[1..]);
      forall k | 0 <= k < |rest| ensures rest[k].alias != routes[0].alias {
        assert rest[k] in rest;
        assert rest[k] in routes[1..];
      }
    }
  }

  function OnEngine(id: string): Route -> bool {
    (r: Route) => !r.manual && r.engineId == id
  }

  function Group(routes: seq<Route>, id: string): seq<Route> {
    Filtered(OnEngine(id), routes)
  }

  const IsInteractive: Route -> bool := (r: Route) => r.interactive
  const IsServing: Route -> bool := (r: Route) => !r.interactive

  // ---- the slots of one engine ------------------------------------------------------------

  function InteractiveCapacity(e: Engine): nat {
    if e.AvailableSlots() <= e.interactiveReserved then e.AvailableSlots() else e.interactiveReserved
  }

  function ServingCapacity(e: Engine): nat {
    e.AvailableSlots() - InteractiveCapacity(e)
  }

  ghost predicate Splittable(group: seq<Route>, r: Route) {
    0 < TotalWeight(Filtered(if r.interactive then IsInteractive else IsServing, group))
  }

  /** The slots of one route of the engine, in whatever order the group is listed. */
  ghost function Slots(e: Engine, group: seq<Route>, r: Route): int
    requires Splittable(group, r)
  {
    if r.interactive then Share(InteractiveCapacity(e), Filtered(IsInteractive, group), r)
    else Share(ServingCapacity(e), Filtered(IsServing, group), r)
  }

  lemma MemberSplittable(group: seq<Route>, r: Route)
    requires ValidRoutes(group) && r in group
    ensures Splittable(group, r)
  {
    var part := Filtered(if r.interactive then IsInteractive else IsServing, group);
    assert r in part;
    WeightPositive(part);
  }

  lemma SlotsOrderIndependent(e: Engine, group: seq<Route>, others: seq<Route>, r: Route)
    requires multiset(group) == multiset(others) && Splittable(group, r)
    ensures Splittable(others, r) && Slots(e, others, r) == Slots(e, group, r)
  {
    var keep := if r.interactive then IsInteractive else IsServing;
    FilteredPermuted(keep, group, others);
    ShareOrderIndependent(if r.interactive then InteractiveCapacity(e) else ServingCapacity(e),
                          Filtered(keep, group), Filtered(keep, others), r);
  }

  ghost function SlotsOf(e: Engine, group: seq<Route>): Route -> int {
    (r: Route) => if Splittable(group, r) then Slots(e, group, r) else 0
  }

  ghost function ServingSlotsOf(e: Engine, group: seq<Route>): Route -> int {
    (r: Route) => if r.interactive then 0 else SlotsOf(e, group)(r)
  }

  lemma {:induction false} TotalFiltered(f: Route -> int, keep: Route -> bool, routes: seq<Route>)
    requires forall r :: r in routes && !keep(r) ==> f(r) == 0
    ensures Total(f, routes) == Total(f, Filtered(keep, routes))
  {
    if routes != [] {
      assert routes[0] in routes;
      TotalFiltered(f, keep, routes[1..]);
    }
  }

  lemma {:induction false} TotalSame(f: Route -> int, g: Route -> int, routes: seq<Route>)
    requires forall r :: r in routes ==> f(r) == g(r)
    ensures Total(f, routes) == Total(g, routes)
  {
    if routes != [] {
      assert routes[0] in routes;
      TotalSame(f, g, routes[1..]);
    }
  }

  /** One kind of route together gets the capacity of its kind, or nothing if there is none. */
  lemma PartTotal(e: Engine, group: seq<Route>, interactive: bool)
    requires ValidRoutes(group) && DistinctAliases(group)
    ensures var part := Filtered(if interactive then IsInteractive else IsServing, group);
            var capacity := if interactive then InteractiveCapacity(e) else ServingCapacity(e);
            Total(SlotsOf(e, group), part) == if part == [] then 0 else capacity
  {
    var part := Filtered(if interactive then IsInteractive else IsServing, group);
    var capacity := if interactive then InteractiveCapacity(e) else ServingCapacity(e);
    FilteredDistinct(if interactive then IsInteractive else IsServing, group);
    WeightPositive(part);
    if part != [] {
      SharesAddUp(capacity, part);
      forall r | r in part ensures SlotsOf(e, group)(r) == Shares(capacity, part)(r) {
        assert r.interactive == interactive;
      }
      TotalSame(SlotsOf(e, group), Shares(capacity, part), part);
    }
  }

  // The free slots of an engine, and those of them set aside for interactive routes.
  function Free(e: Engine): nat {
    if e.activeSlots < e.maxSlots then e.maxSlots - e.activeSlots else 0
  }

  function Reserved(e: Engine): nat {
    if e.interactiveReserved < Free(e) then e.interactiveReserved else Free(e)
  }

  ghost predicate HasKind(group: seq<Route>, interactive: bool) {
    exists r :: r in group && r.interactive == interactive
  }

  /** What `f` gives to the routes of each kind: the reserved slots to the interactive ones,
      all other free slots to the rest, and nothing to a kind without routes. */
  ghost predicate SplitsFree(e: Engine, group: seq<Route>, f: Route -> int) {
    && Total(KindOf(f, true), group) == (if HasKind(group, true) then Reserved(e) else 0)
    && Total(KindOf(f, false), group) == (if HasKind(group, false) then Free(e) - Reserved(e) else 0)
  }

  function KindOf(f: Route -> int, interactive: bool): Route -> int {
    (r: Route) => if r.interactive == interactive then f(r) else 0
  }

  lemma KindTotal(e: Engine, group: seq<Route>, interactive: bool)
    requires ValidRoutes(group) && DistinctAliases(group)
    ensures Total(KindOf(SlotsOf(e, group), interactive), group)
            == if !HasKind(group, interactive) then 0 else if interactive then Reserved(e) else Free(e) - Reserved(e)
  {
    var keep := if interactive then IsInteractive else IsServing;
    var kind := KindOf(SlotsOf(e, group), interactive);
    TotalFiltered(kind, keep, group);
    TotalSame(kind, SlotsOf(e, group), Filtered(keep, group));
    PartTotal(e, group, interactive);
    if r :| r in group && r.interactive == interactive {
      assert r in Filtered(keep, group);
    }
    if Filtered(keep, group) != [] {
      assert Filtered(keep, group)[0] in group;
    }
  }

  lemma EngineShares(e: Engine, group: seq<Route>)
    requires ValidRoutes(group) && DistinctAliases(group)
    ensures SplitsFree(e, group, SlotsOf(e, group))
  {
    KindTotal(e, group, true);
    KindTotal(e, group, false);
  }

  /** An engine never hands out more than its available slots, nor more than its
      borrowable slots to routes that are not interactive. */
  lemma EngineBounds(e: Engine, group: seq<Route>)
    requires ValidRoutes(group) && DistinctAliases(group)
    ensures Total(SlotsOf(e, group), group) <= e.AvailableSlots()
    ensures Total(ServingSlotsOf(e, group), group) <= e.BorrowableSlots()
  {
    var f, serving := SlotsOf(e, group), ServingSlotsOf(e, group);
    var interactive := (r: Route) => if r.interactive then f(r) else 0;
    TotalSum(interactive, serving, f, group);
    TotalFiltered(interactive, IsInteractive, group);
    TotalFiltered(serving, IsServing, group);
    TotalSame(interactive, f, Filtered(IsInteractive, group));
    TotalSame(serving, f, Filtered(IsServing, group));
    PartTotal(e, group, true);
    PartTotal(e, group, false);
  }

  // ---- policies ------------------------------------------------------------------------------

  ghost predicate DistinctIds(engines: seq<Engine>) {
    forall i, j :: 0 <= i < j < |engines| ==> engines[i].id != engines[j].id
  }

  predicate Known(engines: seq<Engine>, id: string) {
    exists e :: e in engines && e.id == id
  }

  /** The inputs neither renderer rejects. */
  ghost predicate Consistent(engines: seq<Engine>, routes: seq<Route>) {
    && DistinctIds(engines)
    && (forall r :: r in routes && !r.manual ==> Known(engines, r.engineId))
    && (forall e :: e in engines && e.Eligible() ==> DistinctAliases(Group(routes, e.id)))
  }

  /** What each eligible engine with routes must be given. */
  ghost predicate IsDistribution(engines: seq<Engine>, routes: seq<Route>, d: map<string, map<string, nat>>) {
    && (forall id :: id in d ==> Known(engines, id))
    && (forall e :: e in engines ==>
          && (e.id in d <==> e.Eligible() && Group(routes, e.id) != [])
          && (e.id in d ==> EngineRow(e, Group(routes, e.id), d[e.id])))
  }

  ghost predicate EngineRow(e: Engine, group: seq<Route>, row: map<string, nat>) {
    && row.Keys == Aliases(group)
    && forall r :: r in group ==> Splittable(group, r) && row[r.alias] == Slots(e, group, r)
  }

  /** The engines of a distribution are the active, healthy or degraded ones with a route, and
      the row of each names the aliases of its routes that are not manual. */
  lemma DistributedEngines(engines: seq<Engine>, routes: seq<Route>, d: map<string, map<string, nat>>, e: Engine)
    requires IsDistribution(engines, routes, d) && e in engines
    ensures e.id in d <==> && e.state == ActiveState && (e.health == Healthy || e.health == Degraded)
                           && exists r :: r in routes && !r.manual && r.engineId == e.id
    ensures e.id in d ==> d[e.id].Keys == set r | r in routes && !r.manual && r.engineId == e.id :: r.alias
  {
    var group := Group(routes, e.id);
    if group != [] {
      assert group[0] in group;
    }
  }

  /** Each row gives all free slots of its engine away, the reserved ones to interactive routes
      and the others to the rest, as far as the engine has routes of that kind. */
  lemma DistributionTotals(engines: seq<Engine>, routes: seq<Route>, d: map<string, map<string, nat>>, e: Engine)
    requires ValidRoutes(routes) && Consistent(engines, routes) && IsDistribution(engines, routes, d)
    requires e in engines && e.id in d
    ensures SplitsFree(e, Group(routes, e.id), RowOf(d[e.id]))
  {
    var group := Group(routes, e.id);
    assert EngineRow(e, group, d[e.id]);
    EngineShares(e, group);
    SameSplit(group, SlotsOf(e, group), RowOf(d[e.id]), true);
    SameSplit(group, SlotsOf(e, group), RowOf(d[e.id]), false);
  }

  lemma SameSplit(group: seq<Route>, f: Route -> int, g: Route -> int, interactive: bool)
    requires forall r :: r in group ==> f(r) == g(r)
    ensures Total(KindOf(f, interactive), group) == Total(KindOf(g, interactive), group)
  {
    TotalSame(KindOf(f, interactive), KindOf(g, interactive), group);
  }

  function RowOf(row: map<string, nat>): Route -> int {
    (r: Route) => if r.alias in row then row[r.alias] else 0
  }

  datatype Entry = Entry(route: Route, slots: nat, engine: Engine)

  predicate Before(a: string, b: string) { a != b && StringLeq(a, b) }

  predicate EntryBefore(m: Entry, n: Entry) {
    Before(m.engine.id, n.engine.id) || (m.engine.id == n.engine.id && Before(m.route.alias, n.route.alias))
  }

  ghost predicate InOrder(entries: seq<Entry>) {
    forall i, j :: 0 <= i < j < |entries| ==> EntryBefore(entries[i], entries[j])
  }

  /** One entry per route with slots, by engine id and alias, none twice. */
  ghost predicate IsRendering(engines: seq<Engine>, routes: seq<Route>, entries: seq<Entry>) {
    && (forall n :: n in entries ==> n.engine in engines && EntryOf(n.engine, Group(routes, n.engine.id), n))
    && (forall e, r :: e in engines && e.Eligible() && r in Group(routes, e.id) && NeedsEntry(e, Group(routes, e.id), r)
          ==> exists n :: n in entries && n.engine == e && n.route == r)
    && InOrder(entries)
  }

  ghost predicate NeedsEntry(e: Engine, group: seq<Route>, r: Route) {
    Splittable(group, r) && 0 < Slots(e, group, r)
  }

  ghost predicate EntryOf(e: Engine, group: seq<Route>, n: Entry) {
    && e.Eligible() && n.engine == e && n.route in group
    && NeedsEntry(e, group, n.route) && n.slots == Slots(e, group, n.route)
    && e.baseUrl.Some?
  }

  /** When both succeed, the entries are exactly the nonzero allocations, each once. */
  lemma RendererAgrees(engines: seq<Engine>, routes: seq<Route>, d: map<string, map<string, nat>>, entries: seq<Entry>)
    requires Consistent(engines, routes)
    requires IsDistribution(engines, routes, d) && IsRendering(engines, routes, entries)
    ensures forall n :: n in entries ==> Allocated(d, n)
    ensures forall id, a :: id in d && a in d[id] && 0 < d[id][a] ==> ExactlyOneEntry(entries, id, a)
  {
    forall n | n in entries ensures Allocated(d, n) {
      EntryAllocated(engines, routes, d, entries, n);
    }
    forall id, a | id in d && a in d[id] && 0 < d[id][a] ensures ExactlyOneEntry(entries, id, a) {
      AllocationRendered(engines, routes, d, entries, id, a);
    }
  }

  predicate Allocated(d: map<string, map<string, nat>>, n: Entry) {
    && n.engine.id in d && n.route.alias in d[n.engine.id]
    && n.slots == d[n.engine.id][n.route.alias] > 0
  }

  predicate ExactlyOneEntry(entries: seq<Entry>, id: string, a: string) {
    exists i :: 0 <= i < |entries| && EntryFor(entries[i], id, a) && OnlyEntry(entries, i)
  }

  /** No other entry has the engine and alias of entry `i`. */
  predicate OnlyEntry(entries: seq<Entry>, i: nat)
    requires i < |entries|
  {
    forall j :: 0 <= j < |entries| && EntryFor(entries[j], entries[i].engine.id, entries[i].route.alias) ==> j == i
  }

  lemma EntryAllocated(engines: seq<Engine>, routes: seq<Route>, d: map<string, map<string, nat>>,
                       entries: seq<Entry>, n: Entry)
    requires IsDistribution(engines, routes, d) && IsRendering(engines, routes, entries) && n in entries
    ensures Allocated(d, n)
  {
    var group := Group(routes, n.engine.id);
    assert EntryOf(n.engine, group, n);
    assert EngineRow(n.engine, group, d[n.engine.id]);
  }

  lemma AllocationRendered(engines: seq<Engine>, routes: seq<Route>, d: map<string, map<string, nat>>,
                           entries: seq<Entry>, id: string, a: string)
    requires Consistent(engines, routes)
    requires IsDistribution(engines, routes, d) && IsRendering(engines, routes, entries)
    requires id in d && a in d[id] && 0 < d[id][a]
    ensures ExactlyOneEntry(entries, id, a)
  {
    var e :| e in engines && e.id == id;
    var group := Group(routes, id);
    assert EngineRow(e, group, d[id]);
    var r :| r in group && r.alias == a;
    assert NeedsEntry(e, group, r);
    var n :| n in entries && n.engine == e && n.route == r;
    var i :| 0 <= i < |entries| && entries[i] == n;
    OnlyInOrder(entries, i);
  }

  lemma OnlyInOrder(entries: seq<Entry>, i: nat)
    requires InOrder(entries) && i < |entries|
    ensures OnlyEntry(entries, i)
  {
    forall j | 0 <= j < |entries| && EntryFor(entries[j], entries[i].engine.id, entries[i].route.alias) ensures j == i {
      if i < j {
        EntriesDiffer(entries, i, j);
      } else if j < i {
        EntriesDiffer(entries, j, i);
      }
    }
  }

  lemma EntriesDiffer(entries: seq<Entry>, i: nat, j: nat)
    requires InOrder(entries) && i < j < |entries|
    ensures entries[i].engine.id != entries[j].engine.id || entries[i].route.alias != entries[j].route.alias
  {
    assert EntryBefore(entries[i], entries[j]);
  }

  predicate EntryFor(n: Entry, id: string, alias: string) {
    n.engine.id == id && n.route.alias == alias
  }

  lemma SameEngine(engines: seq<Engine>, e: Engine, f: Engine)
    requires DistinctIds(engines) && e in engines && f in engines && e.id == f.id
    ensures e == f
  {
  }

  // ---- the loops ----------------------------------------------------------------------------------

  method EnginesById(engines: seq<Engine>) returns (r: Option<map<string, Engine>>)
    ensures r.None? <==> !DistinctIds(engines)
    ensures r.Some? ==> IsIndex(engines, r.value)
  {
    var index: map<string, Engine> := map[];
    for i := 0 to |engines|
      invariant DistinctIds(engines[..i]) && IsIndex(engines[..i], index)
    {
      var id := engines[i].id;
      if id in index {
        assert index[id] in engines[..i];
        var j :| 0 <= j < i && engines[j] == index[id];
        return None;
      }
      forall e | e in engines[..i] ensures e.id != id {
        assert e.id in index;
      }
      index := index[id := engines[i]];
      assert engines[..i + 1] == engines[..i] + [engines[i]];
    }
    assert engines[..|engines|] == engines;
    return Some(index);
  }

  ghost predicate IsIndex(engines: seq<Engine>, index: map<string, Engine>) {
    && (forall e :: e in engines ==> e.id in index && index[e.id] == e)
    && (forall id :: id in index ==> index[id] in engines && index[id].id == id)
  }

  /** `order` lists the engines with routes, each once. */
  ghost predicate IsGrouping(routes: seq<Route>, order: seq<string>, groups: map<string, seq<Route>>) {
    && (forall id :: id in order <==> id in groups)
    && (forall i, j :: 0 <= i < j < |order| ==> order[i] != order[j])
    && (forall id :: if Group(routes, id) == [] then id !in groups else id in groups && groups[id] == Group(routes, id))
  }

  method GroupByEngine(engines: seq<Engine>, index: map<string, Engine>, routes: seq<Route>)
    returns (known: bool, order: seq<string>, groups: map<string, seq<Route>>)
    requires IsIndex(engines, index)
    ensures known <==> forall r :: r in routes && !r.manual ==> Known(engines, r.engineId)
    ensures known ==> IsGrouping(routes, order, groups)
  {
    order, groups := [], map[];
    for i := 0 to |routes|
      invariant forall r :: r in routes[..i] && !r.manual ==> Known(engines, r.engineId)
      invariant IsGrouping(routes[..i], order, groups)
    {
      var r := routes[i];
      assert routes[..i + 1] == routes[..i] + [r];
      GroupingMore(routes[..i], r, order, groups);
      if !r.manual {
        if r.engineId !in index {
          assert r in routes;
          return false, order, groups;
        }
        if r.engineId !in groups {
          order := order + [r.engineId];
          groups := groups[r.engineId := [r]];
        } else {
          groups := groups[r.engineId := groups[r.engineId] + [r]];
        }
      }
    }
    assert routes[..|routes|] == routes;
    known := true;
  }

  /** One more route goes to the end of its engine's group. */
  lemma GroupingMore(routes: seq<Route>, r: Route, order: seq<string>, groups: map<string, seq<Route>>)
    requires IsGrouping(routes, order, groups)
    ensures r.manual ==> IsGrouping(routes + [r], order, groups)
    ensures !r.manual && r.engineId !in groups
        ==> IsGrouping(routes + [r], order + [r.engineId], groups[r.engineId := [r]])
    ensures !r.manual && r.engineId in groups
        ==> IsGrouping(routes + [r], order, groups[r.engineId := groups[r.engineId] + [r]])
  {
    GroupAppend(routes, r);
  }

  lemma GroupAppend(routes: seq<Route>, r: Route)
    ensures forall id :: Group(routes + [r], id) == if r.manual || r.engineId != id then Group(routes, id)
                                                    else Group(routes, id) + [r]
  {
    forall id ensures Group(routes + [r], id) == if r.manual || r.engineId != id then Group(routes, id)
                                                 else Group(routes, id) + [r]
    {
      FilteredAppend(OnEngine(id), routes, [r]);
    }
  }

  method UniqueAliases(routes: seq<Route>) returns (r: Option<seq<Route>>)
    ensures r == if DistinctAliases(routes) then Some(routes) else None
  {
    var seen: set<string>, result := {}, [];
    for i := 0 to |routes|
      invariant result == routes[..i] && DistinctAliases(result) && seen == Aliases(result)
    {
      if routes[i].alias in seen {
        var q :| q in result && q.alias == routes[i].alias;
        var j :| 0 <= j < i && routes[j] == q;
        return None;
      }
      forall j | 0 <= j < i ensures routes[j].alias != routes[i].alias {
        assert routes[j] in result;
      }
      seen := seen + {routes[i].alias};
      result := result + [routes[i]];
    }
    assert routes[..|routes|] == routes;
    return Some(result);
  }

  method EngineDistribution(e: Engine, group: seq<Route>) returns (r: Option<map<string, nat>>)
    requires ValidRoutes(group)
    ensures r.None? <==> !DistinctAliases(group)
    ensures r.Some? ==> EngineRow(e, group, r.value)
  {
    var unique := UniqueAliases(group);
    if unique.None? {
      return None;
    }
    var interactive, serving := Filtered(IsInteractive, group), Filtered(IsServing, group);
    FilteredDistinct(IsInteractive, group);
    FilteredDistinct(IsServing, group);
    var first := WeightedSplit(InteractiveCapacity(e), interactive);
    var second := WeightedSplit(ServingCapacity(e), serving);
    var row := first.value + second.value;
    forall q | q in group ensures Splittable(group, q) && q.alias in row && row[q.alias] == Slots(e, group, q) {
      MemberSplittable(group, q);
      if q.interactive {
        assert q in interactive;
        NotInOther(group, q);
      } else {
        assert q in serving;
      }
    }
    return Some(row);
  }

  lemma NotInOther(group: seq<Route>, q: Route)
    requires DistinctAliases(group) && q in group && q.interactive
    ensures q.alias !in Aliases(Filtered(IsServing, group))
  {
    forall s | s in Filtered(IsServing, group) ensures s.alias != q.alias {
      if s.alias == q.alias {
        AliasUnique(group, q, s);
      }
    }
  }

  // Lists sorted by `leq` are given the same slots.
  lemma SortedRow(e: Engine, group: seq<Route>, sorted: seq<Route>, row: map<string, nat>)
    requires multiset(sorted) == multiset(group) && EngineRow(e, sorted, row)
    ensures EngineRow(e, group, row)
  {
    SameMembers(group, sorted);
    forall r | r in group ensures Splittable(group, r) && row[r.alias] == Slots(e, group, r) {
      SlotsOrderIndependent(e, sorted, group, r);
    }
  }

  lemma SameMembers(group: seq<Route>, sorted: seq<Route>)
    requires multiset(sorted) == multiset(group)
    ensures forall r :: r in group <==> r in sorted
    ensures Aliases(group) == Aliases(sorted)
  {
    forall r ensures r in group <==> r in sorted {
      assert r in group <==> r in multiset(group);
      assert r in sorted <==> r in multiset(sorted);
    }
  }

  /** The routes of one engine in the order of `leq`, and the slots each gets; the slots
      do not depend on that order. */
  method EngineAllocation(e: Engine, group: seq<Route>, leq: (Route, Route) -> bool)
    returns (sorted: seq<Route>, row: Option<map<string, nat>>)
    requires ValidRoutes(group)
    ensures sorted == Sort(leq, group)
    ensures multiset(sorted) == multiset(group)
    ensures row.None? <==> !DistinctAliases(group)
    ensures row.Some? ==> EngineRow(e, group, row.value) && DistinctAliases(sorted) && row.value.Keys == Aliases(sorted)
    ensures forall r :: r in group <==> r in sorted
  {
    sorted := Sort(leq, group);
    SortPermutes(leq, group);
    SameMembers(group, sorted);
    row := EngineDistribution(e, sorted);
    if row.None? {
      if DistinctAliases(group) { DistinctPermuted(group, sorted); }
    } else {
      DistinctPermuted(sorted, group);
      SortedRow(e, group, sorted, row.value);
    }
  }

  const ByAlias: (Route, Route) -> bool := (q: Route, r: Route) => StringLeq(q.alias, r.alias)

  const ByAliasAndModel: (Route, Route) -> bool :=
    (q: Route, r: Route) => if q.alias == r.alias then StringLeq(q.model, r.model) else StringLeq(q.alias, r.alias)

  ghost predicate DistributedSo(engines: seq<Engine>, routes: seq<Route>, d: map<string, map<string, nat>>,
                                done: seq<string>)
  {
    && (forall id :: id in d ==> Known(engines, id))
    && (forall e :: e in engines ==>
          && (e.id in d <==> e.Eligible() && e.id in done)
          && (e.id in d ==> EngineRow(e, Group(routes, e.id), d[e.id]) && DistinctAliases(Group(routes, e.id))))
  }

  /** The distribution the smoke check verifies; None when the inputs are inconsistent. */
  method CalculateDistribution(engines: seq<Engine>, routes: seq<Route>)
    returns (r: Option<map<string, map<string, nat>>>)
    requires ValidRoutes(routes)
    ensures r.None? <==> !Consistent(engines, routes)
    ensures r.Some? ==> IsDistribution(engines, routes, r.value)
  {
    var index := EnginesById(engines);
    if index.None? {
      return None;
    }
    var known, order, groups := GroupByEngine(engines, index.value, routes);
    if !known {
      return None;
    }
    var ids := Sort(StringLeq, order);
    SortPermutes(StringLeq, order);
    var d: map<string, map<string, nat>> := map[];
    for i := 0 to |ids|
      invariant DistributedSo(engines, routes, d, ids[..i])
    {
      var id := ids[i];
      assert id in multiset(ids) && id in multiset(order);
      GroupNonempty(engines, routes, id);
      var e := index.value[id];
      NextId(order, i);
      if e.Eligible() {
        var sorted, row := EngineAllocation(e, groups[id], ByAlias);
        if row.None? {
          return None;
        }
        DistributedMore(engines, routes, d, ids[..i], e, row.value);
        d := d[id := row.value];
      } else {
        DistributedSkip(engines, routes, d, ids[..i], e);
      }
    }
    AllDone(routes, order, groups, ids);
    DistributedAll(engines, routes, d, ids[..|ids|]);
    return Some(d);
  }

  lemma DistributedMore(engines: seq<Engine>, routes: seq<Route>, d: map<string, map<string, nat>>, done: seq<string>,
                        e: Engine, row: map<string, nat>)
    requires DistributedSo(engines, routes, d, done) && DistinctIds(engines) && e in engines && e.Eligible()
    requires EngineRow(e, Group(routes, e.id), row) && DistinctAliases(Group(routes, e.id))
    ensures DistributedSo(engines, routes, d[e.id := row], done + [e.id])
  {
    forall f | f in engines && f.id == e.id ensures f == e {
      SameEngine(engines, e, f);
    }
    assert forall id :: id in done + [e.id] <==> id in done || id == e.id;
  }

  lemma DistributedSkip(engines: seq<Engine>, routes: seq<Route>, d: map<string, map<string, nat>>, done: seq<string>, e: Engine)
    requires DistributedSo(engines, routes, d, done) && DistinctIds(engines) && e in engines && !e.Eligible()
    ensures DistributedSo(engines, routes, d, done + [e.id])
  {
    forall f | f in engines && f.id == e.id ensures f == e {
      SameEngine(engines, e, f);
    }
  }

  lemma DistributedAll(engines: seq<Engine>, routes: seq<Route>, d: map<string, map<string, nat>>, done: seq<string>)
    requires DistributedSo(engines, routes, d, done)
    requires forall id :: id in done <==> Group(routes, id) != []
    ensures IsDistribution(engines, routes, d)
    ensures forall e :: e in engines && e.Eligible() ==> DistinctAliases(Group(routes, e.id))
  {
    forall e | e in engines && e.Eligible() ensures DistinctAliases(Group(routes, e.id)) {
      if e.id !in done {
        assert Group(routes, e.id) == [];
      }
    }
  }

  lemma GroupNonempty(engines: seq<Engine>, routes: seq<Route>, id: string)
    requires Group(routes, id) != []
    requires forall r :: r in routes && !r.manual ==> Known(engines, r.engineId)
    ensures Known(engines, id)
  {
    assert Group(routes, id)[0] in Group(routes, id);
  }

  lemma AllDone(routes: seq<Route>, order: seq<string>, groups: map<string, seq<Route>>, ids: seq<string>)
    requires IsGrouping(routes, order, groups) && multiset(ids) == multiset(order)
    ensures forall id :: id in ids[..|ids|] <==> Group(routes, id) != []
  {
    forall id ensures id in ids[..|ids|] <==> Group(routes, id) != [] {
      assert ids[..|ids|] == ids;
      assert id in ids <==> id in multiset(ids);
      assert id in order <==> id in multiset(order);
    }
  }

  // ---- rendering ------------------------------------------------------------------------------------

  ghost predicate InAliasOrder(routes: seq<Route>) {
    forall i, j :: 0 <= i < j < |routes| ==> Before(routes[i].alias, routes[j].alias)
  }

  lemma SortedAliases(group: seq<Route>)
    requires DistinctAliases(Sort(ByAliasAndModel, group))
    ensures InAliasOrder(Sort(ByAliasAndModel, group))
  {
    ByAliasAndModelIsOrder();
    SortSorted(ByAliasAndModel, group);
    var sorted := Sort(ByAliasAndModel, group);
    forall i, j | 0 <= i < j < |sorted| ensures Before(sorted[i].alias, sorted[j].alias) {
      assert ByAliasAndModel(sorted[i], sorted[j]);
    }
  }

  lemma ByAliasAndModelIsOrder()
    ensures IsOrder(ByAliasAndModel)
  {
    forall q, r ensures ByAliasAndModel(q, r) || ByAliasAndModel(r, q) {
      StringLeqTotal(q.alias, r.alias);
      StringLeqTotal(q.model, r.model);
    }
    forall q, r, s | ByAliasAndModel(q, r) && ByAliasAndModel(r, s) ensures ByAliasAndModel(q, s) {
      AliasAndModelTransitive(q, r, s);
    }
  }

  lemma AliasAndModelTransitive(q: Route, r: Route, s: Route)
    requires ByAliasAndModel(q, r) && ByAliasAndModel(r, s)
    ensures ByAliasAndModel(q, s)
  {
    if q.alias == r.alias == s.alias {
      StringLeqTransitive(q.model, r.model, s.model);
    } else {
      if q.alias == s.alias { StringLeqTotal(q.alias, r.alias); }
      if q.alias != r.alias && r.alias != s.alias { StringLeqTransitive(q.alias, r.alias, s.alias); }
    }
  }

  /** The entries of one engine, in the order its routes are listed; None when a route
      with slots has no base URL to point at. */
  method RenderEngine(e: Engine, routes: seq<Route>, row: map<string, nat>) returns (r: Option<seq<Entry>>)
    requires InAliasOrder(routes) && row.Keys == Aliases(routes)
    ensures r.None? <==> e.baseUrl.None? && exists q :: q in routes && 0 < row[q.alias]
    ensures r.Some? ==> EngineEntries(e, routes, row, r.value)
  {
    var entries: seq<Entry> := [];
    for i := 0 to |routes|
      invariant e.baseUrl.None? ==> forall q :: q in routes[..i] ==> row[q.alias] == 0
      invariant EngineEntries(e, routes[..i], row, entries)
    {
      var slots := row[routes[i].alias];
      assert routes[..i + 1] == routes[..i] + [routes[i]];
      EntriesMore(e, routes[..i], routes[i], row, entries);
      if slots != 0 {
        if e.baseUrl.None? {
          assert routes[i] in routes;
          return None;
        }
        entries := entries + [Entry(routes[i], slots, e)];
      }
    }
    assert routes[..|routes|] == routes;
    return Some(entries);
  }

  lemma EntriesMore(e: Engine, routes: seq<Route>, r: Route, row: map<string, nat>, entries: seq<Entry>)
    requires (forall q :: q in routes + [r] ==> q.alias in row) && EngineEntries(e, routes, row, entries)
    requires forall q :: q in routes ==> Before(q.alias, r.alias)
    ensures row[r.alias] == 0 ==> EngineEntries(e, routes + [r], row, entries)
    ensures row[r.alias] > 0 && e.baseUrl.Some?
        ==> EngineEntries(e, routes + [r], row, entries + [Entry(r, row[r.alias], e)])
  {
    assert r in routes + [r];
    var all := entries + [Entry(r, row[r.alias], e)];
    assert all[|entries|] in all;
    forall i | 0 <= i < |entries| ensures all[i] in entries && Before(all[i].route.alias, r.alias) {
    }
  }

  ghost predicate EngineEntries(e: Engine, routes: seq<Route>, row: map<string, nat>, entries: seq<Entry>)
    requires forall r :: r in routes ==> r.alias in row
  {
    && (forall n :: n in entries ==> n.engine == e && n.route in routes && n.slots == row[n.route.alias] > 0
                                     && e.baseUrl.Some?)
    && (forall r :: r in routes && 0 < row[r.alias] ==> Entry(r, row[r.alias], e) in entries)
    && (forall i, j :: 0 <= i < j < |entries| ==> Before(entries[i].route.alias, entries[j].route.alias))
  }

  ghost predicate RenderedSo(engines: seq<Engine>, routes: seq<Route>, entries: seq<Entry>, done: seq<string>) {
    && (forall n :: n in entries ==>
          n.engine in engines && n.engine.id in done && EntryOf(n.engine, Group(routes, n.engine.id), n))
    && (forall e, r :: e in engines && e.Eligible() && e.id in done && r in Group(routes, e.id)
                       && NeedsEntry(e, Group(routes, e.id), r)
          ==> exists n :: n in entries && n.engine == e && n.route == r)
    && InOrder(entries)
  }

  ghost predicate MissingUrl(engines: seq<Engine>, routes: seq<Route>) {
    exists e :: e in engines && e.Eligible() && LacksUrl(e, Group(routes, e.id))
  }

  ghost predicate LacksUrl(e: Engine, group: seq<Route>) {
    e.baseUrl.None? && exists r :: r in group && NeedsEntry(e, group, r)
  }

  ghost predicate GroupEntries(e: Engine, group: seq<Route>, entries: seq<Entry>) {
    && (forall n :: n in entries ==> EntryOf(e, group, n))
    && (forall r :: r in group && NeedsEntry(e, group, r) ==> exists n :: n in entries && n.engine == e && n.route == r)
    && (forall i, j :: 0 <= i < j < |entries| ==> Before(entries[i].route.alias, entries[j].route.alias))
  }

  lemma RowEntries(e: Engine, group: seq<Route>, sorted: seq<Route>, row: map<string, nat>, entries: seq<Entry>)
    requires e.Eligible() && EngineRow(e, group, row) && multiset(sorted) == multiset(group)
    requires (forall r :: r in sorted ==> r.alias in row) && EngineEntries(e, sorted, row, entries)
    ensures GroupEntries(e, group, entries)
  {
    SameMembers(group, sorted);
    forall r | r in group && NeedsEntry(e, group, r) ensures exists n :: n in entries && n.engine == e && n.route == r {
      assert Entry(r, row[r.alias], e) in entries;
    }
  }

  /** The entries of one eligible engine, its routes by alias and model. */
  method RenderGroup(e: Engine, group: seq<Route>) returns (r: Option<seq<Entry>>)
    requires ValidRoutes(group) && e.Eligible()
    ensures r.None? <==> !DistinctAliases(group) || LacksUrl(e, group)
    ensures r.Some? ==> GroupEntries(e, group, r.value)
  {
    var sorted, row := EngineAllocation(e, group, ByAliasAndModel);
    if row.None? {
      return None;
    }
    DistinctPermuted(sorted, group);
    SortedAliases(group);
    r := RenderEngine(e, sorted, row.value);
    if r.None? {
      var q :| q in sorted && 0 < row.value[q.alias];
      assert NeedsEntry(e, group, q);
    } else {
      RowEntries(e, group, sorted, row.value, r.value);
    }
  }

  ghost predicate Renderable(e: Engine, group: seq<Route>) {
    DistinctAliases(group) && !LacksUrl(e, group)
  }

  ghost predicate NoneRefused(engines: seq<Engine>, routes: seq<Route>, done: seq<string>) {
    forall e :: e in engines && e.Eligible() && e.id in done ==> Renderable(e, Group(routes, e.id))
  }

  lemma RenderedSkip(engines: seq<Engine>, routes: seq<Route>, entries: seq<Entry>, done: seq<string>, e: Engine)
    requires RenderedSo(engines, routes, entries, done) && NoneRefused(engines, routes, done)
    requires DistinctIds(engines) && e in engines && !e.Eligible()
    ensures RenderedSo(engines, routes, entries, done + [e.id]) && NoneRefused(engines, routes, done + [e.id])
  {
    forall f | f in engines && f.id == e.id ensures f == e {
      SameEngine(engines, e, f);
    }
  }

  lemma RenderedAll(engines: seq<Engine>, routes: seq<Route>, entries: seq<Entry>, done: seq<string>)
    requires RenderedSo(engines, routes, entries, done) && NoneRefused(engines, routes, done)
    requires forall id :: id in done <==> Group(routes, id) != []
    ensures IsRendering(engines, routes, entries) && !MissingUrl(engines, routes)
    ensures forall e :: e in engines && e.Eligible() ==> DistinctAliases(Group(routes, e.id))
  {
    forall e | e in engines && e.Eligible() ensures Renderable(e, Group(routes, e.id)) {
      if e.id !in done {
        assert Group(routes, e.id) == [];
      }
    }
    forall e, r | e in engines && e.Eligible() && r in Group(routes, e.id) && NeedsEntry(e, Group(routes, e.id), r)
      ensures exists n :: n in entries && n.engine == e && n.route == r
    {
      assert e.id in done;
    }
  }

  lemma RenderedMore(engines: seq<Engine>, routes: seq<Route>, entries: seq<Entry>, done: seq<string>,
                     e: Engine, more: seq<Entry>)
    requires RenderedSo(engines, routes, entries, done) && DistinctIds(engines)
    requires e in engines && e.Eligible()
    requires GroupEntries(e, Group(routes, e.id), more) && NoneRefused(engines, routes, done)
    requires !LacksUrl(e, Group(routes, e.id)) && DistinctAliases(Group(routes, e.id))
    requires forall id :: id in done ==> Before(id, e.id)
    ensures RenderedSo(engines, routes, entries + more, done + [e.id]) && NoneRefused(engines, routes, done + [e.id])
  {
    var all := entries + more;
    forall f | f in engines && f.Eligible() && f.id in done + [e.id] ensures Renderable(f, Group(routes, f.id)) {
      if f.id == e.id {
        SameEngine(engines, e, f);
      }
    }
    forall n | n in all
      ensures n.engine in engines && n.engine.id in done + [e.id] && EntryOf(n.engine, Group(routes, n.engine.id), n)
    {
      assert n in entries || n in more;
    }
    forall f, r | f in engines && f.Eligible() && f.id in done + [e.id] && r in Group(routes, f.id)
                  && NeedsEntry(f, Group(routes, f.id), r)
      ensures exists n :: n in all && n.engine == f && n.route == r
    {
      if f.id == e.id {
        SameEngine(engines, e, f);
        var n :| n in more && n.engine == f && n.route == r;
        assert n in all;
      } else {
        var n :| n in entries && n.engine == f && n.route == r;
        assert n in all;
      }
    }
    forall i, j | 0 <= i < j < |all| ensures EntryBefore(all[i], all[j]) {
      assert if i < |entries| then all[i] in entries else all[i] in more;
      assert if j < |entries| then all[j] in entries else all[j] in more;
    }
  }

  /** The entries of the managed region: engines by id, routes by alias and model. None
      when the inputs are inconsistent or an entry would lack its base URL. */
  method RenderManagedRegion(engines: seq<Engine>, routes: seq<Route>) returns (r: Option<seq<Entry>>)
    requires ValidRoutes(routes)
    ensures r.None? <==> !Consistent(engines, routes) || MissingUrl(engines, routes)
    ensures r.Some? ==> IsRendering(engines, routes, r.value)
  {
    var index := EnginesById(engines);
    if index.None? {
      return None;
    }
    var known, order, groups := GroupByEngine(engines, index.value, routes);
    if !known {
      return None;
    }
    var ids := Sort(StringLeq, order);
    SortPermutes(StringLeq, order);
    var entries: seq<Entry> := [];
    for i := 0 to |ids|
      invariant RenderedSo(engines, routes, entries, ids[..i]) && NoneRefused(engines, routes, ids[..i])
    {
      var id := ids[i];
      assert id in multiset(ids) && id in multiset(order);
      GroupNonempty(engines, routes, id);
      var e := index.value[id];
      NextId(order, i);
      if !e.Eligible() {
        RenderedSkip(engines, routes, entries, ids[..i], e);
      } else {
        var more := RenderGroup(e, groups[id]);
        if more.None? {
          return None;
        }
        RenderedMore(engines, routes, entries, ids[..i], e, more.value);
        entries := entries + more.value;
      }
    }
    AllDone(routes, order, groups, ids);
    RenderedAll(engines, routes, entries, ids[..|ids|]);
    return Some(entries);
  }

  lemma NextId(order: seq<string>, i: nat)
    requires i < |Sort(StringLeq, order)|
    requires forall i, j :: 0 <= i < j < |order| ==> order[i] != order[j]
    ensures var ids := Sort(StringLeq, order);
            ids[..i + 1] == ids[..i] + [ids[i]] && forall id :: id in ids[..i] ==> Before(id, ids[i])
  {
    var ids := Sort(StringLeq, order);
    SortPermutes(StringLeq, order);
    DistinctStrings(order, ids);
    StringLeqIsOrder();
    SortSorted(StringLeq, order);
    forall k | 0 <= k < i ensures Before(ids[k], ids[i]) {
      assert StringLeq(ids[k], ids[i]);
    }
  }

  lemma StringLeqIsOrder()
    ensures IsOrder(StringLeq)
  {
    forall a, b ensures StringLeq(a, b) || StringLeq(b, a) {
      StringLeqTotal(a, b);
    }
    forall a, b, c | StringLeq(a, b) && StringLeq(b, c) ensures StringLeq(a, c) {
      StringLeqTransitive(a, b, c);
    }
  }

  /** Two renderings of the same inputs are the same list: the text does not depend on the
      order in which engines and routes were given a place in the loops. */
  lemma RenderingUnique(engines: seq<Engine>, routes: seq<Route>, entries: seq<Entry>, others: seq<Entry>)
    requires IsRendering(engines, routes, entries) && IsRendering(engines, routes, others)
    ensures entries == others
  {
    forall n | n in entries ensures n in others {
      EntryShared(engines, routes, entries, others, n);
    }
    forall n | n in others ensures n in entries {
      EntryShared(engines, routes, others, entries, n);
    }
    SameOrder(entries, others);
  }

  lemma EntryShared(engines: seq<Engine>, routes: seq<Route>, entries: seq<Entry>, others: seq<Entry>, n: Entry)
    requires IsRendering(engines, routes, entries) && IsRendering(engines, routes, others) && n in entries
    ensures n in others
  {
    var group := Group(routes, n.engine.id);
    assert EntryOf(n.engine, group, n);
    var m :| m in others && m.engine == n.engine && m.route == n.route;
    assert EntryOf(m.engine, group, m);
  }

  lemma {:induction false} SameOrder(entries: seq<Entry>, others: seq<Entry>)
    requires InOrder(entries) && InOrder(others) && forall n :: n in entries <==> n in others
    ensures entries == others
    decreases |entries|
  {
    if entries != [] && others != [] {
      var m, n := entries[0], others[0];
      assert m in others && n in entries;
      StringLeqTotal(m.engine.id, n.engine.id);
      StringLeqTotal(m.route.alias, n.route.alias);
      assert m == n || (EntryBefore(m, n) && EntryBefore(n, m));
      assert m == n;
      forall x ensures x in entries[1..] <==> x in others[1..] {
        NotAgain(entries, m);
        NotAgain(others, m);
        assert x in entries <==> x == m || x in entries[1..];
        assert x in others <==> x == m || x in others[1..];
      }
      SameOrder(entries[1..], others[1..]);
      assert entries == [m] + entries[1..] && others == [m] + others[1..];
    } else {
      BothEmpty(entries, others);
    }
  }

  lemma NotAgain(entries: seq<Entry>, m: Entry)
    requires InOrder(entries) && entries != [] && entries[0] == m
    ensures m !in entries[1..]
  {
  }

  lemma DistinctStrings(order: seq<string>, ids: seq<string>)
    requires multiset(order) == multiset(ids) && forall i, j :: 0 <= i < j < |order| ==> order[i] != order[j]
    ensures forall i, j :: 0 <= i < j < |ids| ==> ids[i] != ids[j]
  {
    forall i, j | 0 <= i < j < |ids| ensures ids[i] != ids[j] {
      if ids[i] == ids[j] {
        OccursTwice(ids, i, j);
        OccursOnce(order, ids[i]);
      }
    }
  }

  lemma SingleRoute(keep: Route -> bool, f: Route -> int, r: Route)
    requires keep(r)
    ensures Filtered(keep, [r]) == [r] && Total(f, [r]) == f(r)
  {
    assert [r][1..] == [];
    assert Filtered(keep, [r]) == [r] + Filtered(keep, []);
    assert Total(f, [r]) == f(r) + Total(f, []);
  }

  /** An engine of the distribution with slots to give and no base URL. */
  ghost predicate Unaddressed(e: Engine, d: map<string, map<string, nat>>) {
    e.baseUrl.None? && e.id in d && exists a :: a in d[e.id] && 0 < d[e.id][a]
  }

  /** Of consistent inputs the renderer refuses exactly those whose distribution gives slots to an
      engine without a base URL. */
  lemma MissingUrlExactly(engines: seq<Engine>, routes: seq<Route>, d: map<string, map<string, nat>>)
    requires IsDistribution(engines, routes, d)
    ensures MissingUrl(engines, routes) <==> exists e :: e in engines && Unaddressed(e, d)
  {
    forall e | e in engines ensures (e.Eligible() && LacksUrl(e, Group(routes, e.id))) <==> Unaddressed(e, d) {
      UnaddressedEngine(engines, routes, d, e);
    }
  }

  lemma UnaddressedEngine(engines: seq<Engine>, routes: seq<Route>, d: map<string, map<string, nat>>, e: Engine)
    requires IsDistribution(engines, routes, d) && e in engines
    ensures (e.Eligible() && LacksUrl(e, Group(routes, e.id))) <==> Unaddressed(e, d)
  {
    var group := Group(routes, e.id);
    if e.id in d {
      assert EngineRow(e, group, d[e.id]);
      if a :| a in d[e.id] && 0 < d[e.id][a] {
        var r :| r in group && r.alias == a;
        assert NeedsEntry(e, group, r);
      }
      if r :| r in group && NeedsEntry(e, group, r) {
        assert r.alias in Aliases(group) && 0 < d[e.id][r.alias];
      }
    } else if e.Eligible() {
      assert group == [];
    }
  }

  // ---- backend ids ------------------------------------------------------------------------------------

  function BackendId(n: Entry): string {
    n.engine.id + ":" + n.route.alias
  }

  /** The engine id of `n` runs on where that of `m` ends, by what the alias of `m` has in
      front of that of `n`. */
  predicate Shifted(m: Entry, n: Entry) {
    var k := |m.engine.id| + 1;
    && k <= |n.engine.id| && n.engine.id[..k] == m.engine.id + ":"
    && m.route.alias == n.engine.id[k..] + ":" + n.route.alias
  }

  lemma ShiftedSameId(m: Entry, n: Entry)
    requires Shifted(m, n)
    ensures BackendId(m) == BackendId(n)
  {
    var k := |m.engine.id| + 1;
    assert n.engine.id == n.engine.id[..k] + n.engine.id[k..];
  }

  lemma SameIdShifted(m: Entry, n: Entry)
    requires BackendId(m) == BackendId(n) && |m.engine.id| < |n.engine.id|
    ensures Shifted(m, n)
  {
    var k := |m.engine.id| + 1;
    var id := BackendId(m);
    assert id[..k] == m.engine.id + ":" && BackendId(n)[..k] == n.engine.id[..k];
    assert id[k..] == m.route.alias && BackendId(n)[k..] == n.engine.id[k..] + ":" + n.route.alias;
  }

  lemma SameLengthId(m: Entry, n: Entry)
    requires BackendId(m) == BackendId(n) && |m.engine.id| == |n.engine.id|
    ensures m.engine.id == n.engine.id && m.route.alias == n.route.alias
  {
    var k := |m.engine.id|;
    assert BackendId(m)[..k] == m.engine.id && BackendId(n)[..k] == n.engine.id;
    assert BackendId(m)[k + 1..] == m.route.alias && BackendId(n)[k + 1..] == n.route.alias;
  }

  ghost predicate UniqueIds(entries: seq<Entry>) {
    forall i, j :: 0 <= i < j < |entries| ==> BackendId(entries[i]) != BackendId(entries[j])
  }

  /** The backend ids of a rendering are unique exactly if no two entries are shifted against
      each other; with engine ids that have no colon they always are. */
  lemma BackendIdsUnique(engines: seq<Engine>, routes: seq<Route>, entries: seq<Entry>)
    requires IsRendering(engines, routes, entries)
    ensures UniqueIds(entries) <==> forall m, n :: m in entries && n in entries ==> !Shifted(m, n)
    ensures (forall e :: e in engines ==> ':' !in e.id) ==> UniqueIds(entries)
  {
    if forall m, n :: m in entries && n in entries ==> !Shifted(m, n) {
      forall i, j | 0 <= i < j < |entries| ensures BackendId(entries[i]) != BackendId(entries[j]) {
        UnshiftedDiffer(entries, i, j);
      }
    }
    forall m, n | m in entries && n in entries && Shifted(m, n) ensures !UniqueIds(entries) {
      var i :| 0 <= i < |entries| && entries[i] == m;
      var j :| 0 <= j < |entries| && entries[j] == n;
      ShiftedNotUnique(entries, i, j);
    }
    if forall e :: e in engines ==> ':' !in e.id {
      forall m, n | m in entries && n in entries ensures !Shifted(m, n) {
        ColonInShifted(m, n);
      }
    }
  }

  lemma ShiftedNotUnique(entries: seq<Entry>, i: nat, j: nat)
    requires i < |entries| && j < |entries| && Shifted(entries[i], entries[j])
    ensures !UniqueIds(entries)
  {
    ShiftedSameId(entries[i], entries[j]);
    var a, b := if i < j then i else j, if i < j then j else i;
    assert a < b && BackendId(entries[a]) == BackendId(entries[b]);
  }

  lemma UnshiftedDiffer(entries: seq<Entry>, i: nat, j: nat)
    requires InOrder(entries) && i < j < |entries|
    requires !Shifted(entries[i], entries[j]) && !Shifted(entries[j], entries[i])
    ensures BackendId(entries[i]) != BackendId(entries[j])
  {
    EntriesDiffer(entries, i, j);
    if BackendId(entries[i]) == BackendId(entries[j]) {
      if |entries[i].engine.id| < |entries[j].engine.id| {
        SameIdShifted(entries[i], entries[j]);
      } else if |entries[j].engine.id| < |entries[i].engine.id| {
        SameIdShifted(entries[j], entries[i]);
      } else {
        SameLengthId(entries[i], entries[j]);
      }
    }
  }

  lemma ColonInShifted(m: Entry, n: Entry)
    ensures Shifted(m, n) ==> ':' in n.engine.id
  {
    var k := |m.engine.id|;
    assert Shifted(m, n) ==> n.engine.id[..k + 1][k] == ':';
  }

  lemma {:induction false} PrefixLeq(a: string, b: string)
    requires a <= b
    ensures StringLeq(a, b)
  {
    if a != "" {
      assert a[0] == b[0] && a[1..] <= b[1..];
      PrefixLeq(a[1..], b[1..]);
    }
  }

  /** Engines like "a" and "a:b" with aliases like "b:c" and "c" give two entries of one
      rendering the same backend id. */
  lemma BackendIdsCollide(e: Engine, f: Engine, q: Route, r: Route, between: string)
    requires Lone(e, q) && Lone(f, r) && f.id == e.id + ":" + between && q.alias == between + ":" + r.alias
    ensures IsRendering([e, f], [q, r], [Entry(q, 1, e), Entry(r, 1, f)])
    ensures BackendId(Entry(q, 1, e)) == BackendId(Entry(r, 1, f))
  {
    PrefixLeq(e.id, f.id);
    TwoEntries(e, f, q, r);
    assert f.id[..|e.id| + 1] == e.id + ":" && f.id[|e.id| + 1..] == between;
    ShiftedSameId(Entry(q, 1, e), Entry(r, 1, f));
  }

  // One free slot and one route for each of two engines.
  predicate Lone(e: Engine, r: Route) {
    && e.Eligible() && e.baseUrl.Some? && ServingCapacity(e) == 1
    && r.engineId == e.id && r.weight == 1 && !r.interactive && !r.manual
  }

  lemma TwoEntries(e: Engine, f: Engine, q: Route, r: Route)
    requires Lone(e, q) && Lone(f, r) && Before(e.id, f.id)
    ensures IsRendering([e, f], [q, r], [Entry(q, 1, e), Entry(r, 1, f)])
  {
    TwoRoutes(OnEngine(e.id), q, r);
    TwoRoutes(OnEngine(f.id), q, r);
    LoneEntry(e, q, [q, r]);
    LoneEntry(f, r, [q, r]);
    BothEntries([q, r], Entry(q, 1, e), Entry(r, 1, f));
    BothRoutes([q, r], Entry(q, 1, e), Entry(r, 1, f));
  }

  lemma BothEntries(routes: seq<Route>, m: Entry, n: Entry)
    requires EntryOf(m.engine, Group(routes, m.engine.id), m) && EntryOf(n.engine, Group(routes, n.engine.id), n)
    ensures forall x :: x in [m, n] ==> x.engine in [m.engine, n.engine] && EntryOf(x.engine, Group(routes, x.engine.id), x)
  {
    TwoAre(m, n);
    TwoAre(m.engine, n.engine);
  }

  lemma BothRoutes(routes: seq<Route>, m: Entry, n: Entry)
    requires forall r :: r in Group(routes, m.engine.id) ==> r == m.route
    requires forall r :: r in Group(routes, n.engine.id) ==> r == n.route
    ensures forall e, r :: e in [m.engine, n.engine] && r in Group(routes, e.id)
              ==> exists x :: x in [m, n] && x.engine == e && x.route == r
  {
    TwoAre(m, n);
    TwoAre(m.engine, n.engine);
  }

  lemma TwoAre<T>(x: T, y: T)
    ensures x in [x, y] && y in [x, y] && forall z :: z in [x, y] ==> z == x || z == y
  {
    assert [x, y][0] == x && [x, y][1] == y;
  }

  lemma LoneEntry(e: Engine, r: Route, routes: seq<Route>)
    requires Lone(e, r) && Group(routes, e.id) == [r]
    ensures EntryOf(e, Group(routes, e.id), Entry(r, 1, e))
    ensures forall x :: x in Group(routes, e.id) ==> x == r
  {
    OneSlot(e, r);
    assert [r][0] == r;
  }

  lemma TwoRoutes(keep: Route -> bool, q: Route, r: Route)
    ensures Filtered(keep, [q, r]) == (if keep(q) then [q] else []) + (if keep(r) then [r] else [])
  {
    assert [q, r][1..] == [r] && [r][1..] == [];
    assert Filtered(keep, [r]) == (if keep(r) then [r] else []) + Filtered(keep, []);
    assert Filtered(keep, [q, r]) == (if keep(q) then [q] else []) + Filtered(keep, [r]);
  }

  lemma OneSlot(e: Engine, r: Route)
    requires ServingCapacity(e) == 1 && r.weight == 1 && !r.interactive
    ensures NeedsEntry(e, [r], r) && Slots(e, [r], r) == 1
  {
    SingleRoute(IsServing, Weight, r);
    SharesAddUp(1, [r]);
    SingleRoute(IsServing, Shares(1, [r]), r);
  }
}
