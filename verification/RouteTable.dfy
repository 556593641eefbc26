// Switching routes through the guarded apply, and the digest the next apply will expect.
module RouteTables {
  import opened Wrappers
  import opened JsonText
  import opened GuardedApply
  import opened Capacity
  import opened Distribution
  import opened ManagedText
  import opened ManagedRegion

  /** A configured route: its bundle id, how it renders, and its backup's name on a date. */
  datatype Target = Target(bundle: string, render: Text -> Option<Text>, backup: string -> string)

  function RequestFor(target: Target, expected: string, digest: Text -> string, date: string): Request {
    Request(target.bundle, expected, target.render, digest, target.backup(date), true, false)
  }

  class RouteTable {
    const routes: map<string, Target>
    const deployment: Deployment
    const digest: Text -> string
    var current: string
    var history: seq<string>
    var lastReceipt: Option<Receipt>
    var expected: string

    constructor (current: string, routes: map<string, Target>, deployment: Deployment, digest: Text -> string,
                 expected: string)
      requires current in routes && expected != ""
      ensures this.current == current && this.expected == expected && history == [] && lastReceipt == None
      ensures this.routes == routes && this.deployment == deployment && this.digest == digest
    {
      this.routes, this.deployment, this.digest := routes, deployment, digest;
      this.current, this.expected, history, lastReceipt := current, expected, [], None;
    }

    function Now(): Table
      reads this, deployment
    {
      Table(current, history, lastReceipt, expected, deployment.Now())
    }

    /** Make a configured route current, remembering the one before it. */
    method Activate(route: string, date: string, f: Faults) returns (outcome: Outcome)
      modifies this, deployment
      ensures Step(routes, digest, old(Now()), Now(), Switch(route, date, f, true), outcome)
    {
      if route !in routes { return Refused; }
      outcome := deployment.Apply(RequestFor(routes[route], expected, digest, date), f);
      if outcome.Applied? {
        history := history + [current];
        current := route;
        RecordSuccess(outcome.receipt);
      }
    }

    /** Go to a configured route without remembering the one before it. */
    method Rollback(route: string, date: string, f: Faults) returns (outcome: Outcome)
      modifies this, deployment
      ensures Step(routes, digest, old(Now()), Now(), Switch(route, date, f, false), outcome)
    {
      if route !in routes { return Refused; }
      outcome := deployment.Apply(RequestFor(routes[route], expected, digest, date), f);
      if outcome.Applied? {
        current := route;
        RecordSuccess(outcome.receipt);
      }
    }

    method RecordSuccess(receipt: Receipt)
      requires receipt.Succeeded?
      modifies this`expected, this`lastReceipt
      ensures expected == receipt.renderedDigest && lastReceipt == Some(receipt)
    {
      expected, lastReceipt := receipt.renderedDigest, Some(receipt);
    }
  }

  // ---- runs of the table --------------------------------------------------------------------

  datatype Table = Table(current: string, history: seq<string>, lastReceipt: Option<Receipt>, expected: string, world: World)

  datatype Switch = Switch(route: string, date: string, faults: Faults, remember: bool)

  ghost predicate Step(routes: map<string, Target>, digest: Text -> string, t: Table, u: Table, s: Switch, outcome: Outcome) {
    if s.route !in routes then u == t && outcome == Refused
    else
      var q := RequestFor(routes[s.route], t.expected, digest, s.date);
      && outcome == Result(t.world, q, s.faults) && Guarded(t.world, u.world, q, s.faults)
      && u == if outcome.Applied? then
                Table(s.route, if s.remember then t.history + [t.current] else t.history,
                      Some(outcome.receipt), outcome.receipt.renderedDigest, u.world)
              else t.(world := u.world)
  }

  /** The table expects the digest of the file as it is. */
  predicate Tracks(digest: Text -> string, t: Table) {
    t.expected == digest(t.world.config)
  }

  predicate Clean(outcome: Outcome) {
    !outcome.RollbackFailed? && !outcome.Escaped?
  }

  datatype Move = Move(switch: Switch, outcome: Outcome)

  ghost predicate IsRun(routes: map<string, Target>, digest: Text -> string, tables: seq<Table>, moves: seq<Move>) {
    && |tables| == |moves| + 1
    && forall i :: 0 <= i < |moves| ==> Step(routes, digest, tables[i], tables[i + 1], moves[i].switch, moves[i].outcome)
  }

  lemma StepTracks(routes: map<string, Target>, digest: Text -> string, t: Table, u: Table, m: Move)
    requires Step(routes, digest, t, u, m.switch, m.outcome) && Tracks(digest, t) && Clean(m.outcome)
    ensures Tracks(digest, u)
  {
  }

  /** After a rollback that did not finish the table still tracks its file exactly if the
      restore took effect, or the write had not, or the two contents have one digest. */
  lemma FailedRollback(routes: map<string, Target>, digest: Text -> string, t: Table, u: Table, m: Move)
    requires Step(routes, digest, t, u, m.switch, m.outcome) && Tracks(digest, t) && !Clean(m.outcome)
    ensures var f := m.switch.faults;
            && m.switch.route in routes
            && routes[m.switch.route].render(t.world.config).Some?
            && var rendered := routes[m.switch.route].render(t.world.config).value;
               && u.world.config == (if f.OriginalBack() then t.world.config else rendered)
               && (Tracks(digest, u)
                   <==> f.restore.TakesEffect() || !f.write.TakesEffect() || digest(rendered) == digest(t.world.config))
  {
  }

  /** A table that lost track of its file touches nothing any more, not even a backup. */
  lemma LostTrackRefuses(routes: map<string, Target>, digest: Text -> string, t: Table, u: Table, m: Move)
    requires Step(routes, digest, t, u, m.switch, m.outcome) && !Tracks(digest, t)
    ensures m.outcome == Refused && u == t
  {
  }

  const Early: Fault := Fails(false, Operational)
  const SmokeAndRestoreFail: Faults :=
    Faults(Works, Works, Works, Works, Works, Works, Early, Works, Early, Works, Works, Works, false, false)
  const ByLength: Text -> string := (t: Text) => if t == [] then "empty" else "filled"
  const Filling: Target := Target("bundle", (t: Text) => Some([LF]), (date: string) => date)
  const Start: Table := Table("here", [], None, "empty", World([], map[], [], []))
  const Lost: Table :=
    Start.(world := World([LF], map["day" := []], [Told("bundle")], [Failed(true, "bundle", "empty")]))

  /** One smoke failure with a failed restore: the new file stays, the digest does not. */
  lemma RollbackLosesTrack()
    ensures var m := Switch("there", "day", SmokeAndRestoreFail, true);
            && Tracks(ByLength, Start) && Step(map["there" := Filling], ByLength, Start, Lost, m, RollbackFailed)
            && !Tracks(ByLength, Lost)
  {
    var w, q := Start.world, RequestFor(Filling, "empty", ByLength, "day");
    assert q.render(w.config) == Some([LF]) && q.digest(w.config) == "empty" && q.backup == "day";
    assert q.Admitted(w.config, SmokeAndRestoreFail);
    assert Result(w, q, SmokeAndRestoreFail) == RollbackFailed;
    assert Lost.world.backups == w.backups[q.backup := w.config];
  }

  // The routes left by the moves that remember them, in order.
  function Left(tables: seq<Table>, moves: seq<Move>): seq<string>
    requires |tables| == |moves| + 1
  {
    if moves == [] then []
    else
      var n := |moves| - 1;
      Left(tables[..n + 1], moves[..n])
      + if moves[n].outcome.Applied? && moves[n].switch.remember then [tables[n].current] else []
  }

  function LastRoute(start: string, moves: seq<Move>): string {
    if moves == [] then start
    else if moves[|moves| - 1].outcome.Applied? then moves[|moves| - 1].switch.route
    else LastRoute(start, moves[..|moves| - 1])
  }

  /** Over every run the current route is that of the last move that was applied, and the history
      holds the routes that applied activations left, in order. */
  lemma {:induction false} RunHistory(routes: map<string, Target>, digest: Text -> string, tables: seq<Table>, moves: seq<Move>)
    requires IsRun(routes, digest, tables, moves)
    ensures tables[|moves|].current == LastRoute(tables[0].current, moves)
    ensures tables[|moves|].history == tables[0].history + Left(tables, moves)
    decreases |moves|
  {
    if moves != [] {
      var n := |moves| - 1;
      assert forall i :: 0 <= i <= n ==> tables[..n + 1][i] == tables[i];
      assert forall i :: 0 <= i < n ==> moves[..n][i] == moves[i];
      RunHistory(routes, digest, tables[..n + 1], moves[..n]);
      assert Step(routes, digest, tables[n], tables[n + 1], moves[n].switch, moves[n].outcome);
    }
  }

  /** The expected digest is the file's after every run without a failed rollback. */
  lemma {:induction false} RunTracks(routes: map<string, Target>, digest: Text -> string, tables: seq<Table>, moves: seq<Move>)
    requires IsRun(routes, digest, tables, moves) && Tracks(digest, tables[0])
    requires forall m :: m in moves ==> Clean(m.outcome)
    ensures Tracks(digest, tables[|moves|])
    decreases |moves|
  {
    if moves != [] {
      var n := |moves| - 1;
      RunTracks(routes, digest, tables[..n + 1], moves[..n]);
      StepTracks(routes, digest, tables[n], tables[n + 1], moves[n]);
    }
  }

  // ---- what a run serves ------------------------------------------------------------------------

  /** Rendering one route over another leaves nothing of the other. */
  ghost predicate Forgetful(routes: map<string, Target>) {
    forall p, q, s :: p in routes && q in routes && routes[p].render(s).Some? && routes[q].render(s).Some?
      ==> routes[q].render(routes[p].render(s).value) == routes[q].render(s)
  }

  ghost predicate AllRender(routes: map<string, Target>, s: Text) {
    forall q :: q in routes ==> routes[q].render(s).Some?
  }

  ghost predicate SomeApplied(moves: seq<Move>) {
    exists m :: m in moves && m.outcome.Applied?
  }

  /** The file holds the current route's rendering of the file the run began with: going away
      from a route and back restores its bytes, whatever was tried in between. */
  lemma {:induction false} RunServes(routes: map<string, Target>, digest: Text -> string, tables: seq<Table>, moves: seq<Move>)
    requires IsRun(routes, digest, tables, moves) && Forgetful(routes) && AllRender(routes, tables[0].world.config)
    requires forall m :: m in moves ==> Clean(m.outcome)
    ensures var t := tables[|moves|];
            if SomeApplied(moves) then
              t.current in routes && Some(t.world.config) == routes[t.current].render(tables[0].world.config)
            else t.current == tables[0].current && t.world.config == tables[0].world.config && t.history == tables[0].history
    decreases |moves|
  {
    if moves != [] {
      var n := |moves| - 1;
      RunServes(routes, digest, tables[..n + 1], moves[..n]);
      StepServes(routes, digest, tables[n], tables[n + 1], moves[n], tables[0].world.config);
      LastApplied(moves);
    }
  }

  lemma LastApplied(moves: seq<Move>)
    requires moves != []
    ensures SomeApplied(moves) <==> SomeApplied(moves[..|moves| - 1]) || moves[|moves| - 1].outcome.Applied?
  {
    var n := |moves| - 1;
    assert moves == moves[..n] + [moves[n]];
    assert moves[n] in moves;
  }

  lemma StepServes(routes: map<string, Target>, digest: Text -> string, t: Table, u: Table, m: Move, s: Text)
    requires Step(routes, digest, t, u, m.switch, m.outcome) && Clean(m.outcome)
    requires Forgetful(routes) && AllRender(routes, s)
    requires t.world.config == s || (t.current in routes && Some(t.world.config) == routes[t.current].render(s))
    ensures if m.outcome.Applied? then u.current in routes && Some(u.world.config) == routes[u.current].render(s)
            else u.current == t.current && u.world.config == t.world.config && u.history == t.history
  {
  }

  // ---- where the renderings come from -------------------------------------------------------------

  /** The target renders a policy's engines and routes into the managed region. */
  ghost predicate Renders(k: Marks, render: Text -> Option<Text>, engines: seq<Engine>, routes: seq<Route>)
    requires ProperMarks(k)
  {
    forall s, out :: render(s) == Some(out) <==> RenderedFor(k, s, engines, routes, out)
  }

  datatype Policy = Policy(engines: seq<Engine>, routes: seq<Route>)

  /** Routes that render policies without marker texts forget one another. */
  lemma PoliciesForget(k: Marks, targets: map<string, Target>, policies: map<string, Policy>)
    requires ProperMarks(k) && policies.Keys == targets.Keys
    requires forall q :: q in targets ==>
               var policy := policies[q];
               Renders(k, targets[q].render, policy.engines, policy.routes) && MarkerFree(k, policy.engines, policy.routes)
    ensures Forgetful(targets)
  {
    forall p, q, s | p in targets && q in targets && targets[p].render(s).Some? && targets[q].render(s).Some?
      ensures targets[q].render(targets[p].render(s).value) == targets[q].render(s)
    {
      var out, twice := targets[p].render(s).value, targets[q].render(s).value;
      RenderTwice(k, s, policies[p].engines, policies[p].routes, out, policies[q].engines, policies[q].routes, twice);
      assert RenderedFor(k, s, policies[q].engines, policies[q].routes, twice);
      assert RenderedFor(k, out, policies[q].engines, policies[q].routes, twice);
    }
  }
}
