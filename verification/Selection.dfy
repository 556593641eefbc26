// Choosing each role's model from the policy's candidates and the runway telemetry.
module Selection {
  import opened Wrappers

  datatype Mode = Cloud | StrictLocal
  datatype QuotaUnit = Tokens | Requests | OtherUnit

  datatype Candidate = Candidate(id: string, provider: string, account: string, mode: Mode, available: bool,
                                 expiresAt: Option<int>, observable: bool)

  datatype Role = Role(workloadClass: string, candidates: seq<string>, strictLocal: bool, allowLocal: bool)
  {
    predicate Admits(mode: Mode) {
      if strictLocal then mode == StrictLocal else mode == Cloud || allowLocal
    }
  }

  datatype Promotion = Promotion(promoted: bool, candidateId: Option<string>)

  datatype Policy = Policy(quotaUnit: QuotaUnit, maxQuotaUsed: real, maxAge: int, runway: map<string, real>,
                           candidates: seq<Candidate>, promotions: seq<Promotion>, roles: seq<(string, Role)>)
  {
    /** What a parsed policy satisfies: unique candidate ids and role names, positive maxima. */
    ghost predicate Valid() {
      && (forall i, j :: 0 <= i < j < |candidates| ==> candidates[i].id != candidates[j].id)
      && (forall i, j :: 0 <= i < j < |roles| ==> roles[i].0 != roles[j].0)
      && (forall k :: k in runway ==> 0.0 < runway[k])
    }
  }

  // Times are seconds since the oldest representable one, which stands for a missing time.
  datatype Estimate = Estimate(provider: Option<string>, accountLabel: Option<string>, quotaUnit: Option<QuotaUnit>,
                               freshness: Option<nat>, quotaUsed: Option<real>)
  {
    predicate For(name: string, account: string) {
      provider == Some(name) && accountLabel == Some(account)
    }
  }

  // ---- the runway index -------------------------------------------------------------------

  function Freshness(e: Estimate): nat {
    if e.freshness.Some? then e.freshness.value else 0
  }

  /** Fresher first, then the larger use; no known use counts as infinite. */
  predicate RankLeq(e: Estimate, f: Estimate) {
    Freshness(e) < Freshness(f)
    || (Freshness(e) == Freshness(f) && (f.quotaUsed.None? || (e.quotaUsed.Some? && e.quotaUsed.value <= f.quotaUsed.value)))
  }

  type Key = (string, string)

  /** The estimate the engine consults for a key: of the best ranked the first listed. */
  function BestFor(estimates: seq<Estimate>, key: Key): Option<Estimate> {
    if estimates == [] then None
    else
      var n := |estimates| - 1;
      var before := BestFor(estimates[..n], key);
      if !estimates[n].For(key.0, key.1) then before
      else if before.Some? && RankLeq(estimates[n], before.value) then before
      else Some(estimates[n])
  }

  // When an estimate was made, as far as known, and whether it is of an account.
  predicate Of(e: Estimate, provider: string, account: string) {
    e.provider == Some(provider) && e.accountLabel == Some(account)
  }

  function Made(e: Estimate): nat {
    match e.freshness
    case None => 0
    case Some(time) => time
  }

  predicate UsesLess(e: Estimate, f: Estimate) {
    match f.quotaUsed
    case None => e.quotaUsed.Some?
    case Some(used) => e.quotaUsed.Some? && e.quotaUsed.value < used
  }

  /** Estimate `i` is of the account, no other one of the account was made later, none made at
      the same time knows a larger use, and none listed before it is as good. */
  ghost predicate BestAt(estimates: seq<Estimate>, provider: string, account: string, i: nat)
    requires i < |estimates|
  {
    && Of(estimates[i], provider, account)
    && forall j {:trigger Of(estimates[j], provider, account)} ::
         0 <= j < |estimates| && Of(estimates[j], provider, account) && j != i ==>
           || Made(estimates[j]) < Made(estimates[i])
           || (Made(estimates[j]) == Made(estimates[i])
               && (UsesLess(estimates[j], estimates[i]) || (i < j && !UsesLess(estimates[i], estimates[j]))))
  }

  lemma {:induction false} BestIsMaximal(estimates: seq<Estimate>, key: Key)
    ensures BestFor(estimates, key).None? <==> forall e :: e in estimates ==> !Of(e, key.0, key.1)
    ensures BestFor(estimates, key).Some? ==>
              exists i :: 0 <= i < |estimates| && BestAt(estimates, key.0, key.1, i) && estimates[i] == BestFor(estimates, key).value
    decreases |estimates|
  {
    if estimates != [] {
      var n := |estimates| - 1;
      var before := estimates[..n];
      BestIsMaximal(before, key);
      assert estimates == before + [estimates[n]];
      assert forall j :: 0 <= j < n ==> before[j] == estimates[j];
      if BestFor(before, key).Some? {
        var i :| 0 <= i < n && BestAt(before, key.0, key.1, i) && before[i] == BestFor(before, key).value;
        BestExtended(estimates, key, i);
      } else if Of(estimates[n], key.0, key.1) {
        OnlyOne(estimates, key);
      }
    }
  }

  lemma OnlyOne(estimates: seq<Estimate>, key: Key)
    requires estimates != [] && Of(estimates[|estimates| - 1], key.0, key.1)
    requires forall e :: e in estimates[..|estimates| - 1] ==> !Of(e, key.0, key.1)
    ensures BestAt(estimates, key.0, key.1, |estimates| - 1)
  {
    forall j | 0 <= j < |estimates| - 1 ensures !Of(estimates[j], key.0, key.1) {
      assert estimates[..|estimates| - 1][j] == estimates[j];
    }
  }

  // The best so far stays the best unless the next one is better.
  lemma BestExtended(estimates: seq<Estimate>, key: Key, i: nat)
    requires i < |estimates| - 1 && BestAt(estimates[..|estimates| - 1], key.0, key.1, i)
    ensures var n := |estimates| - 1;
            if Of(estimates[n], key.0, key.1) && !RankLeq(estimates[n], estimates[i]) then BestAt(estimates, key.0, key.1, n)
            else BestAt(estimates, key.0, key.1, i)
  {
    var n := |estimates| - 1;
    var before := estimates[..n];
    forall j | 0 <= j < n && Of(estimates[j], key.0, key.1) && j != i
      ensures || Made(estimates[j]) < Made(estimates[i])
              || (Made(estimates[j]) == Made(estimates[i])
                  && (UsesLess(estimates[j], estimates[i]) || (i < j && !UsesLess(estimates[i], estimates[j]))))
    {
      assert before[j] == estimates[j] && before[i] == estimates[i] && Of(before[j], key.0, key.1);
    }
  }

  method RunwayIndex(estimates: seq<Estimate>) returns (index: map<Key, Estimate>)
    ensures IsIndex(estimates, index)
  {
    index := map[];
    for i := 0 to |estimates|
      invariant IsIndex(estimates[..i], index)
    {
      var e := estimates[i];
      assert estimates[..i + 1][..i] == estimates[..i];
      if e.provider.Some? && e.accountLabel.Some? {
        var key := (e.provider.value, e.accountLabel.value);
        if !(key in index && RankLeq(e, index[key])) {
          index := index[key := e];
        }
      }
    }
    assert estimates[..|estimates|] == estimates;
  }

  ghost predicate IsIndex(estimates: seq<Estimate>, index: map<Key, Estimate>) {
    forall key :: if key in index then BestFor(estimates, key) == Some(index[key]) else BestFor(estimates, key) == None
  }

  lemma IndexUnique(estimates: seq<Estimate>, index: map<Key, Estimate>, other: map<Key, Estimate>)
    requires IsIndex(estimates, index) && IsIndex(estimates, other)
    ensures index == other
  {
    forall key ensures key in index <==> key in other {
      assert if key in index then BestFor(estimates, key) == Some(index[key]) else BestFor(estimates, key) == None;
    }
  }

  // ---- the gates ------------------------------------------------------------------------------

  datatype Why = Unknown | Unavailable | Expired | WrongMode | Unpromoted | MismatchedUnit | Stale | NoUsage | QuotaExceeded

  /** What one selection run looks candidates up in. */
  datatype Desk = Desk(policy: Policy, catalog: map<string, Candidate>, promoted: set<string>,
                       index: map<Key, Estimate>, now: int)

  function RunwayKey(c: Candidate): string {
    c.provider + "/" + c.account
  }

  /** The gates a metered candidate passes besides being listed, available and promoted. */
  function MeterGate(d: Desk, c: Candidate): Option<Why>
    requires d.policy.Valid()
  {
    if (c.provider, c.account) !in d.index then Some(Unknown)
    else
      var e := d.index[(c.provider, c.account)];
      if e.quotaUnit != Some(d.policy.quotaUnit) then Some(MismatchedUnit)
      else if e.freshness.None? || d.now - e.freshness.value > d.policy.maxAge then Some(Stale)
      else if RunwayKey(c) !in d.policy.runway then Some(Unknown)
      else if e.quotaUsed.None? then Some(NoUsage)
      else if e.quotaUsed.value / d.policy.runway[RunwayKey(c)] > d.policy.maxQuotaUsed then Some(QuotaExceeded)
      else None
  }

  /** Why a listed reference is excluded, or None. */
  function Gate(d: Desk, role: Role, ref: string): Option<Why>
    requires d.policy.Valid()
  {
    if ref !in d.catalog then Some(Unknown)
    else
      var c := d.catalog[ref];
      if !c.available then Some(Unavailable)
      else if c.expiresAt.Some? && c.expiresAt.value < d.now then Some(Expired)
      else if !role.Admits(c.mode) then Some(WrongMode)
      else if ref !in d.promoted then Some(Unpromoted)
      else if c.mode == StrictLocal || !c.observable then None
      else MeterGate(d, c)
  }

  /** A metered candidate's best estimate is recent, in the policy's unit and under its share. */
  predicate UnderQuota(d: Desk, c: Candidate) {
    && (c.provider, c.account) in d.index && RunwayKey(c) in d.policy.runway
    && var e := d.index[(c.provider, c.account)];
       && e.quotaUnit == Some(d.policy.quotaUnit)
       && e.freshness.Some? && d.now <= e.freshness.value + d.policy.maxAge
       && e.quotaUsed.Some? && e.quotaUsed.value <= d.policy.maxQuotaUsed * d.policy.runway[RunwayKey(c)]
  }

  predicate Eligible(d: Desk, role: Role, ref: string) {
    && Rung(d, role, ref)
    && var c := d.catalog[ref];
       && (c.expiresAt.Some? ==> d.now <= c.expiresAt.value)
       && (c.mode == Cloud && c.observable ==> UnderQuota(d, c))
  }

  /** What a fallback chain may hold. */
  predicate Rung(d: Desk, role: Role, ref: string) {
    ref in d.promoted && ref in d.catalog && d.catalog[ref].available && role.Admits(d.catalog[ref].mode)
  }

  lemma DivideBound(used: real, maximum: real, share: real)
    requires 0.0 < maximum
    ensures used / maximum <= share <==> used <= share * maximum
  {
    var q := used / maximum;
    assert q * maximum == used;
    if q <= share {
      assert (share - q) * maximum >= 0.0;
    } else {
      assert (q - share) * maximum > 0.0;
    }
  }

  /** The chain of checks lets through exactly the eligible candidates. */
  lemma GateExactly(d: Desk, role: Role, ref: string)
    requires d.policy.Valid()
    ensures Gate(d, role, ref).None? <==> Eligible(d, role, ref)
  {
    if ref in d.catalog {
      var c := d.catalog[ref];
      if (c.provider, c.account) in d.index && RunwayKey(c) in d.policy.runway {
        var e := d.index[(c.provider, c.account)];
        if e.quotaUsed.Some? {
          DivideBound(e.quotaUsed.value, d.policy.runway[RunwayKey(c)], d.policy.maxQuotaUsed);
        }
      }
    }
  }

  /** A strict-local role takes local candidates only; another one takes every cloud candidate,
      and local ones if it allows them. */
  lemma RungModes(d: Desk, role: Role, ref: string)
    requires ref in d.promoted && ref in d.catalog && d.catalog[ref].available
    ensures var mode := d.catalog[ref].mode;
            && (role.strictLocal ==> (Rung(d, role, ref) <==> mode == StrictLocal))
            && (!role.strictLocal && mode == Cloud ==> Rung(d, role, ref))
            && (!role.strictLocal && mode == StrictLocal ==> (Rung(d, role, ref) <==> role.allowLocal))
  {
  }

  /** The gate named is the first one that fails: whether the reference is listed, available,
      in date, of an admitted mode and promoted, and then, for metered ones, the meter. */
  lemma FirstGate(d: Desk, role: Role, ref: string)
    requires d.policy.Valid()
    ensures var why := Gate(d, role, ref);
            var listed := ref in d.catalog;
            var available := listed && d.catalog[ref].available;
            var inDate := available && (d.catalog[ref].expiresAt.Some? ==> d.now <= d.catalog[ref].expiresAt.value);
            var admitted := inDate && role.Admits(d.catalog[ref].mode);
            var promoted := admitted && ref in d.promoted;
            var metered := promoted && d.catalog[ref].mode == Cloud && d.catalog[ref].observable;
            && (!listed ==> why == Some(Unknown))
            && (why == Some(Unavailable) <==> listed && !available)
            && (why == Some(Expired) <==> available && !inDate)
            && (why == Some(WrongMode) <==> inDate && !admitted)
            && (why == Some(Unpromoted) <==> admitted && !promoted)
            && (promoted && !metered ==> why.None?)
            && (metered ==> why == MeterGate(d, d.catalog[ref]))
  {
  }

  /** Of the meter the first failing check is named too: an estimate for the account in the
      policy's unit, recent enough, with a maximum and a known use, under the policy's share. */
  lemma FirstMeterGate(d: Desk, c: Candidate)
    requires d.policy.Valid()
    ensures var why := MeterGate(d, c);
            var known := (c.provider, c.account) in d.index;
            var matched := known && d.index[(c.provider, c.account)].quotaUnit == Some(d.policy.quotaUnit);
            var recent := matched && d.index[(c.provider, c.account)].freshness.Some?
                          && d.now <= d.index[(c.provider, c.account)].freshness.value + d.policy.maxAge;
            var bounded := recent && RunwayKey(c) in d.policy.runway;
            var used := bounded && d.index[(c.provider, c.account)].quotaUsed.Some?;
            && (why == Some(Unknown) <==> !known || (recent && !bounded))
            && (why == Some(MismatchedUnit) <==> known && !matched)
            && (why == Some(Stale) <==> matched && !recent)
            && (why == Some(NoUsage) <==> bounded && !used)
            && (why == Some(QuotaExceeded) <==> used && !UnderQuota(d, c))
            && (why.None? <==> used && UnderQuota(d, c))
  {
    if (c.provider, c.account) in d.index && RunwayKey(c) in d.policy.runway {
      var e := d.index[(c.provider, c.account)];
      if e.quotaUsed.Some? {
        DivideBound(e.quotaUsed.value, d.policy.runway[RunwayKey(c)], d.policy.maxQuotaUsed);
      }
    }
  }

  // ---- one role ---------------------------------------------------------------------------------

  /** The first listed candidate that passes every gate. */
  ghost predicate FirstEligible(d: Desk, role: Role, selected: Option<string>) {
    match selected
    case None => NoneEligible(d, role, |role.candidates|)
    case Some(ref) => exists i :: 0 <= i < |role.candidates| && role.candidates[i] == ref && FirstAt(d, role, i)
  }

  function Chain(d: Desk, role: Role, refs: seq<string>, primary: string): seq<string> {
    if refs == [] then []
    else
      (if refs[0] != primary && Rung(d, role, refs[0]) then [refs[0]] else []) + Chain(d, role, refs[1..], primary)
  }

  /** The chain holds the role's other rungs, and for a strict-local role no cloud candidate. */
  lemma {:induction false} ChainMembers(d: Desk, role: Role, refs: seq<string>, primary: string)
    ensures forall ref :: ref in Chain(d, role, refs, primary) <==> ref in refs && ref != primary && Rung(d, role, ref)
    ensures role.strictLocal ==>
              forall ref :: ref in Chain(d, role, refs, primary) ==> ref in d.catalog && d.catalog[ref].mode == StrictLocal
  {
    if refs != [] {
      ChainMembers(d, role, refs[1..], primary);
    }
  }

  lemma {:induction false} ChainAppend(d: Desk, role: Role, refs: seq<string>, more: seq<string>, primary: string)
    ensures Chain(d, role, refs + more, primary) == Chain(d, role, refs, primary) + Chain(d, role, more, primary)
    decreases |refs|
  {
    if refs == [] {
      assert refs + more == more;
    } else {
      assert (refs + more)[1..] == refs[1..] + more;
      ChainAppend(d, role, refs[1..], more, primary);
    }
  }

  /** The chain keeps the order of the role's list: a rung listed before another one stands
      before it in the chain. */
  lemma ChainOrder(d: Desk, role: Role, refs: seq<string>, primary: string, i: nat, j: nat)
    requires i < j < |refs| && refs[i] != primary && refs[j] != primary && Rung(d, role, refs[i]) && Rung(d, role, refs[j])
    ensures var chain := Chain(d, role, refs, primary);
            exists m, n :: 0 <= m < n < |chain| && chain[m] == refs[i] && chain[n] == refs[j]
  {
    var front, back := Chain(d, role, refs[..j], primary), Chain(d, role, refs[j..], primary);
    assert refs == refs[..j] + refs[j..];
    ChainAppend(d, role, refs[..j], refs[j..], primary);
    ChainMembers(d, role, refs[..j], primary);
    assert refs[..j][i] == refs[i] && refs[i] in refs[..j];
    var m :| 0 <= m < |front| && front[m] == refs[i];
    assert refs[j..][0] == refs[j] && back[0] == refs[j];
    assert (front + back)[m] == refs[i] && (front + back)[|front|] == refs[j];
  }

  method EvaluateRole(d: Desk, role: Role) returns (eligible: seq<string>, failures: seq<(string, Why)>)
    requires d.policy.Valid()
    ensures FirstEligible(d, role, if eligible == [] then None else Some(eligible[0]))
    ensures forall ref :: ref in eligible <==> ref in role.candidates && Eligible(d, role, ref)
    ensures failures == Failures(d, role, role.candidates)
  {
    eligible, failures := [], [];
    ghost var first := 0;
    for i := 0 to |role.candidates|
      invariant if eligible == [] then NoneEligible(d, role, i)
                else first < i && FirstAt(d, role, first) && role.candidates[first] == eligible[0]
      invariant forall ref :: ref in eligible <==> ref in role.candidates[..i] && Eligible(d, role, ref)
      invariant failures == Failures(d, role, role.candidates[..i])
    {
      var ref := role.candidates[i];
      var why := Gate(d, role, ref);
      GateExactly(d, role, ref);
      NextCandidate(d, role, role.candidates, i);
      if why.Some? {
        failures := failures + [(ref, why.value)];
      } else {
        if eligible == [] { first := i; }
        eligible := eligible + [ref];
      }
    }
    assert role.candidates[..|role.candidates|] == role.candidates;
  }

  lemma NextCandidate(d: Desk, role: Role, refs: seq<string>, i: nat)
    requires d.policy.Valid() && i < |refs|
    ensures var why := Gate(d, role, refs[i]);
            Failures(d, role, refs[..i + 1]) == Failures(d, role, refs[..i]) + if why.Some? then [(refs[i], why.value)] else []
    ensures forall ref :: ref in refs[..i + 1] <==> ref in refs[..i] || ref == refs[i]
  {
    assert refs[..i + 1][..i] == refs[..i] && refs[..i + 1][i] == refs[i];
    assert refs[..i + 1] == refs[..i] + [refs[i]];
  }

  ghost predicate FirstAt(d: Desk, role: Role, k: nat)
    requires k < |role.candidates|
  {
    Eligible(d, role, role.candidates[k]) && NoneEligible(d, role, k)
  }

  ghost predicate NoneEligible(d: Desk, role: Role, n: nat)
    requires n <= |role.candidates|
  {
    forall j :: 0 <= j < n ==> !Eligible(d, role, role.candidates[j])
  }

  /** Every excluded reference with the first gate it failed, in listed order. */
  function Failures(d: Desk, role: Role, refs: seq<string>): seq<(string, Why)>
    requires d.policy.Valid()
  {
    if refs == [] then []
    else
      var n := |refs| - 1;
      var why := Gate(d, role, refs[n]);
      Failures(d, role, refs[..n]) + if why.Some? then [(refs[n], why.value)] else []
  }

  // ---- the plan ------------------------------------------------------------------------------------

  datatype Decision = Decision(role: string, workloadClass: string, previous: Option<string>, selected: Option<string>,
                               changed: bool, blocked: bool, excluded: seq<(string, Why)>)

  datatype Plan = Plan(modelRoles: map<string, string>, fallbackChains: map<string, seq<string>>,
                       changedRoles: seq<string>, blockedRoles: seq<string>, decisions: seq<Decision>)

  function Lookup<T>(m: map<string, T>, k: string): Option<T> {
    if k in m then Some(m[k]) else None
  }

  /** What a plan says about one role, given what was assigned before. */
  ghost predicate RolePlanned(d: Desk, name: string, role: Role, before: Plan, p: Plan, selected: Option<string>) {
    var previous := Lookup(before.modelRoles, name);
    var primary := if selected.Some? then selected else previous;
    && FirstEligible(d, role, selected)
    && Lookup(p.modelRoles, name) == primary
    && Lookup(p.fallbackChains, name)
       == (if primary.Some? then Some(Chain(d, role, role.candidates, primary.value)) else Lookup(before.fallbackChains, name))
  }

  predicate Managed(roles: seq<(string, Role)>, name: string) {
    exists i :: 0 <= i < |roles| && roles[i].0 == name
  }

  ghost predicate UnmanagedKept(roles: seq<(string, Role)>, before: Plan, p: Plan) {
    forall name :: !Managed(roles, name) ==>
      && Lookup(p.modelRoles, name) == Lookup(before.modelRoles, name)
      && Lookup(p.fallbackChains, name) == Lookup(before.fallbackChains, name)
  }

  ghost predicate DecisionsMatch(d: Desk, roles: seq<(string, Role)>, before: Plan, p: Plan)
    requires d.policy.Valid()
  {
    && |p.decisions| == |roles|
    && forall i :: 0 <= i < |roles| ==>
         var (name, role) := roles[i];
         var selected := p.decisions[i].selected;
         var previous := Lookup(before.modelRoles, name);
         && RolePlanned(d, name, role, before, p, selected)
         && p.decisions[i] == Decision(name, role.workloadClass, previous, selected,
                                       selected.Some? && selected != previous, selected.None?,
                                       Failures(d, role, role.candidates))
  }

  // The names of the decisions for which `pick` holds, in order.
  function Names(decisions: seq<Decision>, pick: Decision -> bool): seq<string> {
    if decisions == [] then []
    else
      var n := |decisions| - 1;
      Names(decisions[..n], pick) + if pick(decisions[n]) then [decisions[n].role] else []
  }

  const IsChanged: Decision -> bool := (x: Decision) => x.changed
  const IsBlocked: Decision -> bool := (x: Decision) => x.blocked

  /** A plan for the given roles and nothing else. */
  ghost predicate IsPlan(d: Desk, roles: seq<(string, Role)>, before: Plan, p: Plan)
    requires d.policy.Valid()
  {
    && UnmanagedKept(roles, before, p) && DecisionsMatch(d, roles, before, p)
    && p.changedRoles == Names(p.decisions, IsChanged) && p.blockedRoles == Names(p.decisions, IsBlocked)
  }

  lemma FirstEligibleUnique(d: Desk, role: Role, selected: Option<string>, other: Option<string>)
    requires FirstEligible(d, role, selected) && FirstEligible(d, role, other)
    ensures selected == other
  {
    if selected.Some? && other.Some? {
      var i :| 0 <= i < |role.candidates| && role.candidates[i] == selected.value && FirstAt(d, role, i);
      var k :| 0 <= k < |role.candidates| && role.candidates[k] == other.value && FirstAt(d, role, k);
      assert i == k;
    }
  }

  lemma PlanTwice(d: Desk, roles: seq<(string, Role)>, before: Plan, p: Plan, q: Plan)
    requires d.policy.Valid() && IsPlan(d, roles, before, p) && IsPlan(d, roles, p, q)
    ensures q.modelRoles == p.modelRoles && q.fallbackChains == p.fallbackChains
    ensures q.changedRoles == [] && q.blockedRoles == p.blockedRoles
  {
    forall name
      ensures Lookup(q.modelRoles, name) == Lookup(p.modelRoles, name)
      ensures Lookup(q.fallbackChains, name) == Lookup(p.fallbackChains, name)
    {
      if Managed(roles, name) {
        var i :| 0 <= i < |roles| && roles[i].0 == name;
        SameRole(d, roles, before, p, q, i);
      }
    }
    SameMap(q.modelRoles, p.modelRoles);
    SameMap(q.fallbackChains, p.fallbackChains);
    forall i | 0 <= i < |roles| ensures !q.decisions[i].changed && q.decisions[i].blocked == p.decisions[i].blocked
                                        && q.decisions[i].role == p.decisions[i].role
    {
      SameRole(d, roles, before, p, q, i);
    }
    NoNames(q.decisions, IsChanged);
    SameNames(q.decisions, p.decisions, IsBlocked);
  }

  lemma SameRole(d: Desk, roles: seq<(string, Role)>, before: Plan, p: Plan, q: Plan, i: nat)
    requires d.policy.Valid() && DecisionsMatch(d, roles, before, p) && DecisionsMatch(d, roles, p, q) && i < |roles|
    ensures var name := roles[i].0;
            && Lookup(q.modelRoles, name) == Lookup(p.modelRoles, name)
            && Lookup(q.fallbackChains, name) == Lookup(p.fallbackChains, name)
            && q.decisions[i].selected == p.decisions[i].selected && !q.decisions[i].changed
            && q.decisions[i].blocked == p.decisions[i].blocked && q.decisions[i].role == p.decisions[i].role
  {
    var (name, role) := roles[i];
    assert RolePlanned(d, name, role, before, p, p.decisions[i].selected);
    assert RolePlanned(d, name, role, p, q, q.decisions[i].selected);
    FirstEligibleUnique(d, role, p.decisions[i].selected, q.decisions[i].selected);
  }

  lemma SameMap<T>(m: map<string, T>, n: map<string, T>)
    requires forall k :: Lookup(m, k) == Lookup(n, k)
    ensures m == n
  {
    forall k ensures (k in m <==> k in n) && (k in m ==> m[k] == n[k]) {
      assert Lookup(m, k) == Lookup(n, k);
    }
  }

  lemma {:induction false} NoNames(decisions: seq<Decision>, pick: Decision -> bool)
    requires forall i :: 0 <= i < |decisions| ==> !pick(decisions[i])
    ensures Names(decisions, pick) == []
    decreases |decisions|
  {
    if decisions != [] {
      NoNames(decisions[..|decisions| - 1], pick);
    }
  }

  lemma {:induction false} SameNames(decisions: seq<Decision>, others: seq<Decision>, pick: Decision -> bool)
    requires |decisions| == |others|
    requires forall i :: 0 <= i < |decisions| ==>
               pick(decisions[i]) == pick(others[i]) && decisions[i].role == others[i].role
    ensures Names(decisions, pick) == Names(others, pick)
    decreases |decisions|
  {
    if decisions != [] {
      SameNames(decisions[..|decisions| - 1], others[..|others| - 1], pick);
    }
  }

  // ---- the run ---------------------------------------------------------------------------------------

  method PromotedIds(promotions: seq<Promotion>) returns (promoted: set<string>)
    ensures promoted == set x | x in promotions && x.promoted && x.candidateId.Some? :: x.candidateId.value
  {
    promoted := {};
    for i := 0 to |promotions|
      invariant promoted == set x | x in promotions[..i] && x.promoted && x.candidateId.Some? :: x.candidateId.value
    {
      var x := promotions[i];
      assert promotions[..i + 1] == promotions[..i] + [x];
      if x.promoted && x.candidateId.Some? {
        promoted := promoted + {x.candidateId.value};
      }
    }
    assert promotions[..|promotions|] == promotions;
  }

  function Catalog(policy: Policy): map<string, Candidate>
    requires policy.Valid()
  {
    map c | c in policy.candidates :: c.id := c
  }

  /** The desk a run works from, as a function of its inputs. */
  ghost predicate DeskFor(policy: Policy, estimates: seq<Estimate>, now: int, d: Desk)
    requires policy.Valid()
  {
    && d.policy == policy && d.now == now && IsIndex(estimates, d.index)
    && d.promoted == (set x | x in policy.promotions && x.promoted && x.candidateId.Some? :: x.candidateId.value)
    && d.catalog == Catalog(policy)
  }

  lemma DeskUnique(policy: Policy, estimates: seq<Estimate>, now: int, d: Desk, e: Desk)
    requires policy.Valid() && DeskFor(policy, estimates, now, d) && DeskFor(policy, estimates, now, e)
    ensures d == e
  {
    IndexUnique(estimates, d.index, e.index);
  }

  /** `p` is the plan for these inputs. */
  ghost predicate Selected(policy: Policy, estimates: seq<Estimate>, modelRoles: map<string, string>,
                           fallbackChains: map<string, seq<string>>, now: int, p: Plan)
    requires policy.Valid()
  {
    exists d :: DeskFor(policy, estimates, now, d)
                && IsPlan(d, policy.roles, Plan(modelRoles, fallbackChains, [], [], []), p)
  }

  method SelectModels(policy: Policy, estimates: seq<Estimate>, modelRoles: map<string, string>,
                      fallbackChains: map<string, seq<string>>, now: int)
    returns (p: Plan)
    requires policy.Valid()
    ensures Selected(policy, estimates, modelRoles, fallbackChains, now, p)
  {
    var promoted := PromotedIds(policy.promotions);
    var index := RunwayIndex(estimates);
    var desk := Desk(policy, Catalog(policy), promoted, index, now);
    p := Plan(modelRoles, fallbackChains, [], [], []);
    ghost var before := p;
    for i := 0 to |policy.roles|
      invariant IsPlan(desk, policy.roles[..i], before, p)
    {
      var (name, role) := policy.roles[i];
      var eligible, failures := EvaluateRole(desk, role);
      var selected := if eligible == [] then None else Some(eligible[0]);
      AssignedIsPlan(desk, policy.roles, before, p, i, selected);
      p := Assigned(desk, p, name, role, selected, failures);
    }
    assert policy.roles[..|policy.roles|] == policy.roles;
    assert DeskFor(policy, estimates, now, desk);
  }

  /** The plan after one more role: its primary, the chain behind it, and the audit record. */
  function Assigned(d: Desk, p: Plan, name: string, role: Role, selected: Option<string>, excluded: seq<(string, Why)>): Plan {
    var previous := Lookup(p.modelRoles, name);
    var primary := if selected.Some? then selected else previous;
    var changed := selected.Some? && selected != previous;
    Plan(if selected.Some? then p.modelRoles[name := selected.value] else p.modelRoles,
         if primary.Some? then p.fallbackChains[name := Chain(d, role, role.candidates, primary.value)] else p.fallbackChains,
         if changed then p.changedRoles + [name] else p.changedRoles,
         if selected.None? then p.blockedRoles + [name] else p.blockedRoles,
         p.decisions + [Decision(name, role.workloadClass, previous, selected, changed, selected.None?, excluded)])
  }

  lemma AssignedIsPlan(d: Desk, roles: seq<(string, Role)>, before: Plan, p: Plan, i: nat, selected: Option<string>)
    requires d.policy.Valid() && i < |roles| && IsPlan(d, roles[..i], before, p)
    requires forall i, j :: 0 <= i < j < |roles| ==> roles[i].0 != roles[j].0
    requires FirstEligible(d, roles[i].1, selected)
    ensures var (name, role) := roles[i];
            IsPlan(d, roles[..i + 1], before, Assigned(d, p, name, role, selected, Failures(d, role, role.candidates)))
  {
    var (name, role) := roles[i];
    var q := Assigned(d, p, name, role, selected, Failures(d, role, role.candidates));
    assert q.decisions[..|q.decisions| - 1] == p.decisions;
    PlanExtended(d, roles, before, p, q, i);
  }

  /** One more role changes only its own keys. */
  lemma PlanExtended(d: Desk, roles: seq<(string, Role)>, before: Plan, p: Plan, q: Plan, i: nat)
    requires d.policy.Valid() && i < |roles| && IsPlan(d, roles[..i], before, p)
    requires forall i, j :: 0 <= i < j < |roles| ==> roles[i].0 != roles[j].0
    requires q.decisions != [] && q.decisions[..|q.decisions| - 1] == p.decisions
    requires var (name, role) := roles[i];
             var decision := q.decisions[|q.decisions| - 1];
             var previous := Lookup(p.modelRoles, name);
             && RolePlanned(d, name, role, p, q, decision.selected)
             && decision == Decision(name, role.workloadClass, previous, decision.selected,
                                     decision.selected.Some? && decision.selected != previous, decision.selected.None?,
                                     Failures(d, role, role.candidates))
             && q.changedRoles == p.changedRoles + (if decision.changed then [name] else [])
             && q.blockedRoles == p.blockedRoles + (if decision.blocked then [name] else [])
    requires forall name :: name != roles[i].0 ==>
               Lookup(q.modelRoles, name) == Lookup(p.modelRoles, name)
               && Lookup(q.fallbackChains, name) == Lookup(p.fallbackChains, name)
    ensures IsPlan(d, roles[..i + 1], before, q)
  {
    var (name, role) := roles[i];
    var more := roles[..i + 1];
    assert !Managed(roles[..i], name);
    assert more[i] == roles[i];
    forall other | !Managed(more, other)
      ensures Lookup(q.modelRoles, other) == Lookup(before.modelRoles, other)
      ensures Lookup(q.fallbackChains, other) == Lookup(before.fallbackChains, other)
    {
      assert forall k :: 0 <= k < i ==> roles[..i][k] == more[k];
      assert !Managed(roles[..i], other);
      assert more[i].0 == name;
    }
    forall k | 0 <= k < |more|
      ensures RolePlanned(d, more[k].0, more[k].1, before, q, q.decisions[k].selected)
    {
      if k < i {
        assert roles[..i][k] == more[k] && q.decisions[k] == p.decisions[k];
        assert RolePlanned(d, more[k].0, more[k].1, before, p, p.decisions[k].selected);
      }
    }
    forall k | 0 <= k < i ensures q.decisions[k] == p.decisions[k] && roles[..i][k] == more[k] {
    }
  }

  /** A second run over the first one's output, with the same policy, runway and time,
      assigns the same models and chains and reports no change. */
  lemma SelectionIsAFixpoint(policy: Policy, estimates: seq<Estimate>, modelRoles: map<string, string>,
                             fallbackChains: map<string, seq<string>>, now: int, p: Plan, q: Plan)
    requires policy.Valid() && Selected(policy, estimates, modelRoles, fallbackChains, now, p)
    requires Selected(policy, estimates, p.modelRoles, p.fallbackChains, now, q)
    ensures q.modelRoles == p.modelRoles && q.fallbackChains == p.fallbackChains
    ensures q.changedRoles == [] && q.blockedRoles == p.blockedRoles
  {
    var before, again := Plan(modelRoles, fallbackChains, [], [], []), Plan(p.modelRoles, p.fallbackChains, [], [], []);
    var d :| DeskFor(policy, estimates, now, d) && IsPlan(d, policy.roles, before, p);
    var e :| DeskFor(policy, estimates, now, e) && IsPlan(e, policy.roles, again, q);
    DeskUnique(policy, estimates, now, d, e);
    SameStart(d, policy.roles, again, p, q);
    PlanTwice(d, policy.roles, before, p, q);
  }

  // A plan depends only on the assignments it starts from.
  lemma SameStart(d: Desk, roles: seq<(string, Role)>, before: Plan, other: Plan, p: Plan)
    requires d.policy.Valid() && IsPlan(d, roles, before, p)
    requires before.modelRoles == other.modelRoles && before.fallbackChains == other.fallbackChains
    ensures IsPlan(d, roles, other, p)
  {
    forall i | 0 <= i < |roles| ensures RolePlanned(d, roles[i].0, roles[i].1, other, p, p.decisions[i].selected) {
      assert RolePlanned(d, roles[i].0, roles[i].1, before, p, p.decisions[i].selected);
    }
  }

  // ---- the plan by its inputs ---------------------------------------------------------------------

  /** A candidate a role may hold at all: available, promoted, and of a mode the role takes. */
  ghost predicate Usable(policy: Policy, role: Role, c: Candidate) {
    && c in policy.candidates && c.available
    && (exists x :: x in policy.promotions && x.promoted && x.candidateId == Some(c.id))
    && (if role.strictLocal then c.mode == StrictLocal else c.mode == StrictLocal ==> role.allowLocal)
  }

  /** Its account's best estimate is in the policy's unit, recent, and under the policy's share
      of the account's maximum. */
  ghost predicate Covered(policy: Policy, estimates: seq<Estimate>, now: int, c: Candidate) {
    exists i :: 0 <= i < |estimates| && BestAt(estimates, c.provider, c.account, i) && Covers(policy, now, c, estimates[i])
  }

  predicate Covers(policy: Policy, now: int, c: Candidate, e: Estimate) {
    var key := c.provider + "/" + c.account;
    && e.quotaUnit == Some(policy.quotaUnit)
    && e.freshness.Some? && now <= e.freshness.value + policy.maxAge
    && key in policy.runway && e.quotaUsed.Some? && e.quotaUsed.value <= policy.maxQuotaUsed * policy.runway[key]
  }

  /** A candidate a role may be given now. */
  ghost predicate Entitled(policy: Policy, estimates: seq<Estimate>, now: int, role: Role, c: Candidate) {
    && Usable(policy, role, c)
    && (c.expiresAt.Some? ==> now <= c.expiresAt.value)
    && (c.mode == Cloud && c.observable ==> Covered(policy, estimates, now, c))
  }

  ghost predicate RefUsable(policy: Policy, role: Role, ref: string) {
    exists c :: c in policy.candidates && c.id == ref && Usable(policy, role, c)
  }

  ghost predicate RefEntitled(policy: Policy, estimates: seq<Estimate>, now: int, role: Role, ref: string) {
    exists c :: c in policy.candidates && c.id == ref && Entitled(policy, estimates, now, role, c)
  }

  lemma Catalogued(policy: Policy, ref: string)
    requires policy.Valid()
    ensures ref in Catalog(policy) <==> exists c :: c in policy.candidates && c.id == ref
    ensures ref in Catalog(policy) ==> Catalog(policy)[ref] in policy.candidates && Catalog(policy)[ref].id == ref
    ensures forall c :: c in policy.candidates && c.id == ref ==> ref in Catalog(policy) && Catalog(policy)[ref] == c
  {
  }

  lemma RungIsUsable(policy: Policy, estimates: seq<Estimate>, now: int, d: Desk, role: Role, ref: string)
    requires policy.Valid() && DeskFor(policy, estimates, now, d)
    ensures Rung(d, role, ref) <==> RefUsable(policy, role, ref)
    ensures ref in d.catalog ==> (Rung(d, role, ref) <==> Usable(policy, role, d.catalog[ref]))
  {
    Catalogued(policy, ref);
    PromotedRef(policy, d.promoted, ref);
    if ref in d.catalog {
      assert Rung(d, role, ref) <==> Usable(policy, role, d.catalog[ref]);
    }
  }

  lemma PromotedRef(policy: Policy, promoted: set<string>, ref: string)
    requires promoted == (set x | x in policy.promotions && x.promoted && x.candidateId.Some? :: x.candidateId.value)
    ensures ref in promoted <==> exists x :: x in policy.promotions && x.promoted && x.candidateId == Some(ref)
  {
  }

  lemma BestUnique(estimates: seq<Estimate>, provider: string, account: string, i: nat, j: nat)
    requires i < |estimates| && j < |estimates|
    requires BestAt(estimates, provider, account, i) && BestAt(estimates, provider, account, j)
    ensures i == j
  {
    assert Of(estimates[i], provider, account) && Of(estimates[j], provider, account);
  }

  lemma UnderQuotaIsCovered(policy: Policy, estimates: seq<Estimate>, now: int, d: Desk, c: Candidate)
    requires policy.Valid() && DeskFor(policy, estimates, now, d)
    ensures UnderQuota(d, c) <==> Covered(policy, estimates, now, c)
  {
    var key := (c.provider, c.account);
    assert if key in d.index then BestFor(estimates, key) == Some(d.index[key]) else BestFor(estimates, key) == None;
    CoveredByBest(policy, estimates, now, c);
  }

  lemma CoveredByBest(policy: Policy, estimates: seq<Estimate>, now: int, c: Candidate)
    ensures var best := BestFor(estimates, (c.provider, c.account));
            Covered(policy, estimates, now, c) <==> best.Some? && Covers(policy, now, c, best.value)
  {
    var best := BestFor(estimates, (c.provider, c.account));
    BestIsMaximal(estimates, (c.provider, c.account));
    if k :| 0 <= k < |estimates| && BestAt(estimates, c.provider, c.account, k) {
      assert Of(estimates[k], c.provider, c.account) && estimates[k] in estimates;
      var i :| 0 <= i < |estimates| && BestAt(estimates, c.provider, c.account, i) && estimates[i] == best.value;
      BestUnique(estimates, c.provider, c.account, i, k);
    }
  }

  lemma EligibleIsEntitled(policy: Policy, estimates: seq<Estimate>, now: int, d: Desk, role: Role, ref: string)
    requires policy.Valid() && DeskFor(policy, estimates, now, d)
    ensures Eligible(d, role, ref) <==> RefEntitled(policy, estimates, now, role, ref)
  {
    Catalogued(policy, ref);
    RungIsUsable(policy, estimates, now, d, role, ref);
    if ref in d.catalog {
      UnderQuotaIsCovered(policy, estimates, now, d, d.catalog[ref]);
      assert Eligible(d, role, ref) <==> Entitled(policy, estimates, now, role, d.catalog[ref]);
    }
  }

  /** The first listed candidate that is entitled; none if none is. */
  ghost predicate FirstEntitled(policy: Policy, estimates: seq<Estimate>, now: int, role: Role, chosen: Option<string>) {
    match chosen
    case None => forall ref :: ref in role.candidates ==> !RefEntitled(policy, estimates, now, role, ref)
    case Some(name) =>
      exists i :: && 0 <= i < |role.candidates| && role.candidates[i] == name
                  && RefEntitled(policy, estimates, now, role, name)
                  && forall j :: 0 <= j < i ==> !RefEntitled(policy, estimates, now, role, role.candidates[j])
  }

  lemma FirstEligibleIsEntitled(policy: Policy, estimates: seq<Estimate>, now: int, d: Desk, role: Role, chosen: Option<string>)
    requires policy.Valid() && DeskFor(policy, estimates, now, d) && FirstEligible(d, role, chosen)
    ensures FirstEntitled(policy, estimates, now, role, chosen)
  {
    forall ref ensures Eligible(d, role, ref) <==> RefEntitled(policy, estimates, now, role, ref) {
      EligibleIsEntitled(policy, estimates, now, d, role, ref);
    }
    match chosen {
      case None =>
        forall ref | ref in role.candidates ensures !RefEntitled(policy, estimates, now, role, ref) {
          var i :| 0 <= i < |role.candidates| && role.candidates[i] == ref;
          assert !Eligible(d, role, role.candidates[i]);
        }
      case Some(name) =>
        var i :| 0 <= i < |role.candidates| && role.candidates[i] == name && FirstAt(d, role, i);
        assert Eligible(d, role, role.candidates[i]);
    }
  }

  /** What a plan gives one role, by the inputs alone: the first entitled candidate, else what it
      had; behind it exactly the role's other usable candidates. */
  ghost predicate Given(policy: Policy, estimates: seq<Estimate>, now: int, modelRoles: map<string, string>,
                        name: string, role: Role, p: Plan, chosen: Option<string>)
  {
    && FirstEntitled(policy, estimates, now, role, chosen)
    && (name in p.modelRoles <==> chosen.Some? || name in modelRoles)
    && (chosen.Some? ==> p.modelRoles[name] == chosen.value)
    && (chosen.None? && name in modelRoles ==> p.modelRoles[name] == modelRoles[name])
    && (name in p.modelRoles ==>
          && name in p.fallbackChains
          && forall ref :: ref in p.fallbackChains[name]
                      <==> ref in role.candidates && ref != p.modelRoles[name] && RefUsable(policy, role, ref))
  }

  /** Every role is given what its inputs entitle it to, the roles reported as changed are those
      given another model than they had, and the blocked ones those entitled to none. */
  lemma PlanExactly(policy: Policy, estimates: seq<Estimate>, modelRoles: map<string, string>,
                    fallbackChains: map<string, seq<string>>, now: int, p: Plan, i: nat)
    requires policy.Valid() && Selected(policy, estimates, modelRoles, fallbackChains, now, p) && i < |policy.roles|
    ensures |p.decisions| == |policy.roles|
    ensures var (name, role) := policy.roles[i];
            var chosen := p.decisions[i].selected;
            && Given(policy, estimates, now, modelRoles, name, role, p, chosen)
            && (name in p.changedRoles <==> chosen.Some? && !(name in modelRoles && modelRoles[name] == chosen.value))
            && (name in p.blockedRoles <==> chosen.None?)
  {
    var d :| DeskFor(policy, estimates, now, d)
             && IsPlan(d, policy.roles, Plan(modelRoles, fallbackChains, [], [], []), p);
    var (name, role) := policy.roles[i];
    var before := Plan(modelRoles, fallbackChains, [], [], []);
    assert RolePlanned(d, name, role, before, p, p.decisions[i].selected);
    RoleGiven(policy, estimates, now, d, name, role, before, p, p.decisions[i].selected);
    NamesMember(policy.roles, p.decisions, IsChanged, i);
    NamesMember(policy.roles, p.decisions, IsBlocked, i);
  }

  lemma RoleGiven(policy: Policy, estimates: seq<Estimate>, now: int, d: Desk, name: string, role: Role,
                  before: Plan, p: Plan, chosen: Option<string>)
    requires policy.Valid() && DeskFor(policy, estimates, now, d) && RolePlanned(d, name, role, before, p, chosen)
    ensures Given(policy, estimates, now, before.modelRoles, name, role, p, chosen)
  {
    FirstEligibleIsEntitled(policy, estimates, now, d, role, chosen);
    if name in p.modelRoles {
      ChainMembers(d, role, role.candidates, p.modelRoles[name]);
      forall ref ensures Rung(d, role, ref) <==> RefUsable(policy, role, ref) {
        RungIsUsable(policy, estimates, now, d, role, ref);
      }
    }
  }

  lemma {:induction false} NamesMember(roles: seq<(string, Role)>, decisions: seq<Decision>, pick: Decision -> bool, i: nat)
    requires i < |decisions| <= |roles|
    requires forall k :: 0 <= k < |decisions| ==> decisions[k].role == roles[k].0
    requires forall k, l :: 0 <= k < l < |roles| ==> roles[k].0 != roles[l].0
    ensures roles[i].0 in Names(decisions, pick) <==> pick(decisions[i])
    decreases |decisions|
  {
    var n := |decisions| - 1;
    if i < n {
      NamesMember(roles, decisions[..n], pick, i);
      assert roles[i].0 != roles[n].0;
    } else {
      NamesFrom(roles, decisions[..n], pick);
    }
  }

  lemma {:induction false} NamesFrom(roles: seq<(string, Role)>, decisions: seq<Decision>, pick: Decision -> bool)
    requires |decisions| <= |roles| && forall k :: 0 <= k < |decisions| ==> decisions[k].role == roles[k].0
    ensures forall name :: name in Names(decisions, pick) ==> exists k :: 0 <= k < |decisions| && roles[k].0 == name
    decreases |decisions|
  {
    if decisions != [] {
      NamesFrom(roles, decisions[..|decisions| - 1], pick);
      assert decisions[|decisions| - 1].role == roles[|decisions| - 1].0;
    }
  }
}
