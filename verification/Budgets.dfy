// Token budgets per agent, project and provider, and the transcripts that spend them.
module Budgets {
  import opened Wrappers

  datatype Context = Context(transcriptId: string, agent: string, project: Option<string>, provider: Option<string>,
                             explicitSelector: bool, manualCloud: bool, automatic: Option<bool>)
  {
    predicate Manual() { explicitSelector || manualCloud || automatic == Some(false) }
  }

  datatype OpenBudget = OpenBudget(context: Context, consumedTokens: nat, closed: bool)

  datatype Limits = Limits(agent: map<string, nat>, project: map<string, nat>, provider: map<string, nat>)

  datatype Usage = Usage(agent: map<string, nat>, project: map<string, nat>, provider: map<string, nat>)

  datatype Admission = Admission(allowed: bool, manual: bool, reason: Option<Block>)
  datatype Observation = Observation(manual: bool, wouldBlockReason: Option<Block>)
  datatype Block = TranscriptBudgetClosed | EnvelopeBreached | EnvelopeWouldBeExceeded

  datatype Closure = Closure(transcriptId: string, agent: string, project: Option<string>, provider: Option<string>,
                             consumedTokens: nat)

  datatype Books = Books(limits: Limits, usage: Usage, open: map<string, OpenBudget>, closed: set<string>)

  function Amount(tokens: real): nat {
    if tokens.Floor < 0 then 0 else tokens.Floor
  }

  function Used(usage: map<string, nat>, key: string): nat {
    if key in usage then usage[key] else 0
  }

  // ---- limits -------------------------------------------------------------------------------

  function Exceeds(usage: map<string, nat>, limits: map<string, nat>, key: string, additional: nat): bool {
    key in limits && Used(usage, key) + additional > limits[key]
  }

  function WouldExceed(b: Books, c: Context, amount: nat): bool {
    || Exceeds(b.usage.agent, b.limits.agent, c.agent, amount)
    || (c.project.Some? && Exceeds(b.usage.project, b.limits.project, c.project.value, amount))
    || (c.provider.Some? && Exceeds(b.usage.provider, b.limits.provider, c.provider.value, amount))
  }

  predicate ScopeWithin(usage: map<string, nat>, limits: map<string, nat>, key: Option<string>, amount: nat) {
    key.Some? && key.value in limits ==> Used(usage, key.value) + amount <= limits[key.value]
  }

  /** Every limited scope of the request stays within its limit after `amount` more tokens. */
  predicate Within(b: Books, c: Context, amount: nat) {
    && ScopeWithin(b.usage.agent, b.limits.agent, Some(c.agent), amount)
    && ScopeWithin(b.usage.project, b.limits.project, c.project, amount)
    && ScopeWithin(b.usage.provider, b.limits.provider, c.provider, amount)
  }

  function BlockReason(b: Books, c: Context, amount: nat): Option<Block> {
    if c.transcriptId in b.closed then Some(TranscriptBudgetClosed)
    else if !c.Manual() && WouldExceed(b, c, 0) then Some(EnvelopeBreached)
    else if !c.Manual() && WouldExceed(b, c, amount) then Some(EnvelopeWouldBeExceeded)
    else None
  }

  /** An open transcript is admitted exactly if it is manual or leaves every limited scope
      within its limit; the reason tells whether a limit was passed before the request. */
  lemma AdmittedExactly(b: Books, c: Context, amount: nat)
    ensures var reason := BlockReason(b, c, amount);
            var manual := c.explicitSelector || c.manualCloud || c.automatic == Some(false);
            && (reason == Some(TranscriptBudgetClosed) <==> c.transcriptId in b.closed)
            && (reason == Some(EnvelopeBreached) <==> c.transcriptId !in b.closed && !manual && !Within(b, c, 0))
            && (reason == Some(EnvelopeWouldBeExceeded)
                <==> c.transcriptId !in b.closed && !manual && Within(b, c, 0) && !Within(b, c, amount))
            && (reason.None? <==> c.transcriptId !in b.closed && (manual || Within(b, c, amount)))
  {
  }

  /** The tokens of a call count as their whole part, and negative ones as none. */
  lemma AmountMeaning(tokens: real)
    ensures tokens < 0.0 ==> Amount(tokens) == 0
    ensures 0.0 <= tokens ==> Amount(tokens) as real <= tokens < Amount(tokens) as real + 1.0
  {
  }

  // ---- the operations on the books ------------------------------------------------------------

  function Opened(b: Books, c: Context): Books {
    if c.transcriptId in b.open then b else b.(open := b.open[c.transcriptId := OpenBudget(c, 0, false)])
  }

  function Add(usage: map<string, nat>, key: Option<string>, amount: nat): map<string, nat> {
    if key.None? then usage else usage[key.value := Used(usage, key.value) + amount]
  }

  function Charged(usage: Usage, c: Context, amount: nat): Usage {
    Usage(Add(usage.agent, Some(c.agent), amount), Add(usage.project, c.project, amount), Add(usage.provider, c.provider, amount))
  }

  datatype Event =
    | Admit(context: Context, estimate: real)
    | Observe(context: Context, estimate: real)
    | Consume(transcriptId: string, tokens: real)
    | Close(transcriptId: string)
    | Resume(transcriptId: string)
    | UpdateLimits(limits: Limits)

  predicate Charges(b: Books, id: string) {
    id in b.open && !b.open[id].closed
  }

  function Step(b: Books, e: Event): Books {
    match e
    case Admit(c, estimate) => if BlockReason(b, c, Amount(estimate)).Some? then b else Opened(b, c)
    case Observe(c, _) => Opened(b, c)
    case Consume(id, tokens) =>
      if !Charges(b, id) then b
      else
        var o, amount := b.open[id], Amount(tokens);
        b.(open := b.open[id := o.(consumedTokens := o.consumedTokens + amount)], usage := Charged(b.usage, o.context, amount))
    case Close(id) =>
      if id !in b.open then b
      else b.(open := b.open[id := b.open[id].(closed := true)], closed := b.closed + {id})
    case Resume(id) => b.(open := b.open - {id}, closed := b.closed - {id})
    case UpdateLimits(limits) => b.(limits := limits)
  }

  /** The tokens a call of `consume` accepted. */
  function AcceptedTokens(b: Books, e: Event): nat {
    if e.Consume? && Charges(b, e.transcriptId) then Amount(e.tokens) else 0
  }

  // ---- sums over a table --------------------------------------------------------------------------

  ghost function Sum(m: map<string, nat>): nat {
    if m == map[] then 0
    else
      var k :| k in m;
      m[k] + Sum(m - {k})
  }

  lemma {:induction false} SumAt(m: map<string, nat>, k: string)
    requires k in m
    ensures Sum(m) == m[k] + Sum(m - {k})
    decreases m
  {
    var j :| j in m && Sum(m) == m[j] + Sum(m - {j});
    if j != k {
      SumAt(m - {j}, k);
      SumAt(m - {k}, j);
      assert m - {j} - {k} == m - {k} - {j};
    }
  }

  lemma SumPut(m: map<string, nat>, k: string, n: nat)
    ensures Sum(m[k := n]) == Sum(m) - Used(m, k) + n
  {
    SumAt(m[k := n], k);
    assert m[k := n] - {k} == m - {k};
    if k in m {
      SumAt(m, k);
    } else {
      assert m - {k} == m;
    }
  }

  // The tokens of the open transcripts of one agent.
  function AgentTokens(open: map<string, OpenBudget>, agent: string): map<string, nat> {
    map id | id in open && open[id].context.agent == agent :: open[id].consumedTokens
  }

  ghost function OpenTokens(open: map<string, OpenBudget>, agent: string): nat {
    Sum(AgentTokens(open, agent))
  }

  lemma OpenTokensPut(open: map<string, OpenBudget>, id: string, o: OpenBudget, agent: string)
    requires id in open ==> o.context.agent == open[id].context.agent
    ensures OpenTokens(open[id := o], agent)
         == OpenTokens(open, agent) + (if o.context.agent != agent then 0
                                       else o.consumedTokens - (if id in open then open[id].consumedTokens else 0))
  {
    var before, after := AgentTokens(open, agent), AgentTokens(open[id := o], agent);
    if o.context.agent == agent {
      assert after == before[id := o.consumedTokens];
      SumPut(before, id, o.consumedTokens);
    } else {
      assert after == before;
    }
  }

  lemma OpenTokensRemoved(open: map<string, OpenBudget>, id: string, agent: string)
    ensures OpenTokens(open - {id}, agent) <= OpenTokens(open, agent)
  {
    var before, after := AgentTokens(open, agent), AgentTokens(open - {id}, agent);
    if id in before {
      SumAt(before, id);
      assert after == before - {id};
    } else {
      assert after == before;
    }
  }

  // ---- conservation ----------------------------------------------------------------------------------

  /** The closed set is the open transcripts flagged closed. */
  ghost predicate ClosedFlagged(open: map<string, OpenBudget>, closed: set<string>) {
    && (forall id :: id in closed <==> id in open && open[id].closed)
    && (forall id :: id in open ==> open[id].context.transcriptId == id)
  }

  /** `spent` is all tokens that were ever accepted. */
  ghost predicate Accounted(usage: Usage, spent: nat) {
    Sum(usage.agent) == spent && Sum(usage.project) <= spent && Sum(usage.provider) <= spent
  }

  /** No agent's usage is less than the tokens of its open transcripts. */
  ghost predicate Backed(open: map<string, OpenBudget>, usage: map<string, nat>) {
    forall agent {:trigger OpenTokens(open, agent)} :: OpenTokens(open, agent) <= Used(usage, agent)
  }

  ghost predicate Conserved(b: Books, spent: nat) {
    ClosedFlagged(b.open, b.closed) && Accounted(b.usage, spent) && Backed(b.open, b.usage.agent)
  }

  lemma ConsumeConserves(b: Books, id: string, tokens: real, spent: nat)
    requires Conserved(b, spent)
    ensures Conserved(Step(b, Consume(id, tokens)), spent + AcceptedTokens(b, Consume(id, tokens)))
  {
    if Charges(b, id) {
      ChargeAccounted(b.usage, b.open[id].context, Amount(tokens), spent);
      ChargeBacked(b.open, b.usage.agent, id, Amount(tokens));
    }
  }

  lemma ChargeAccounted(usage: Usage, c: Context, amount: nat, spent: nat)
    requires Accounted(usage, spent)
    ensures Accounted(Charged(usage, c, amount), spent + amount)
  {
    AddSum(usage.agent, Some(c.agent), amount);
    AddSum(usage.project, c.project, amount);
    AddSum(usage.provider, c.provider, amount);
  }

  lemma ChargeBacked(open: map<string, OpenBudget>, usage: map<string, nat>, id: string, amount: nat)
    requires Backed(open, usage) && id in open
    ensures var o := open[id];
            Backed(open[id := o.(consumedTokens := o.consumedTokens + amount)], Add(usage, Some(o.context.agent), amount))
  {
    var o := open[id];
    var next := open[id := o.(consumedTokens := o.consumedTokens + amount)];
    forall agent ensures OpenTokens(next, agent) <= Used(Add(usage, Some(o.context.agent), amount), agent) {
      assert OpenTokens(open, agent) <= Used(usage, agent);
      OpenTokensCharged(open, usage, id, amount, agent);
    }
  }

  lemma OpenTokensCharged(open: map<string, OpenBudget>, usage: map<string, nat>, id: string, amount: nat, agent: string)
    requires id in open && OpenTokens(open, agent) <= Used(usage, agent)
    ensures var o := open[id];
            OpenTokens(open[id := o.(consumedTokens := o.consumedTokens + amount)], agent)
            <= Used(Add(usage, Some(o.context.agent), amount), agent)
  {
    var o := open[id];
    OpenTokensPut(open, id, o.(consumedTokens := o.consumedTokens + amount), agent);
  }

  lemma AddSum(usage: map<string, nat>, key: Option<string>, amount: nat)
    ensures Sum(Add(usage, key, amount)) == Sum(usage) + if key.Some? then amount else 0
  {
    if key.Some? {
      SumPut(usage, key.value, Used(usage, key.value) + amount);
    }
  }

  lemma OpenedConserves(b: Books, c: Context, spent: nat)
    requires Conserved(b, spent)
    ensures Conserved(Opened(b, c), spent)
  {
    if c.transcriptId !in b.open {
      var o := OpenBudget(c, 0, false);
      forall agent ensures OpenTokens(b.open[c.transcriptId := o], agent) <= Used(b.usage.agent, agent) {
        OpenTokensPut(b.open, c.transcriptId, o, agent);
        assert OpenTokens(b.open, agent) <= Used(b.usage.agent, agent);
      }
    }
  }

  lemma CloseConserves(b: Books, id: string, spent: nat)
    requires Conserved(b, spent)
    ensures Conserved(Step(b, Close(id)), spent)
  {
    if id in b.open {
      var o := b.open[id].(closed := true);
      forall agent ensures OpenTokens(b.open[id := o], agent) <= Used(b.usage.agent, agent) {
        OpenTokensPut(b.open, id, o, agent);
        assert OpenTokens(b.open, agent) <= Used(b.usage.agent, agent);
      }
    }
  }

  lemma ResumeConserves(b: Books, id: string, spent: nat)
    requires Conserved(b, spent)
    ensures Conserved(Step(b, Resume(id)), spent)
  {
    forall agent ensures OpenTokens(b.open - {id}, agent) <= Used(b.usage.agent, agent) {
      OpenTokensRemoved(b.open, id, agent);
      assert OpenTokens(b.open, agent) <= Used(b.usage.agent, agent);
    }
  }

  lemma StepConserves(b: Books, e: Event, spent: nat)
    requires Conserved(b, spent)
    ensures Conserved(Step(b, e), spent + AcceptedTokens(b, e))
  {
    match e {
      case Admit(c, _) => OpenedConserves(b, c, spent);
      case Observe(c, _) => OpenedConserves(b, c, spent);
      case Consume(id, tokens) => ConsumeConserves(b, id, tokens, spent);
      case Close(id) => CloseConserves(b, id, spent);
      case Resume(id) => ResumeConserves(b, id, spent);
      case UpdateLimits(_) =>
    }
  }

  function Run(b: Books, events: seq<Event>): Books
    decreases |events|
  {
    if events == [] then b else Run(Step(b, events[0]), events[1..])
  }

  function RunTokens(b: Books, events: seq<Event>): nat
    decreases |events|
  {
    if events == [] then 0 else AcceptedTokens(b, events[0]) + RunTokens(Step(b, events[0]), events[1..])
  }

  function Fresh(limits: Limits): Books {
    Books(limits, Usage(map[], map[], map[]), map[], {})
  }

  lemma {:induction false} RunConserves(b: Books, events: seq<Event>, spent: nat)
    requires Conserved(b, spent)
    ensures Conserved(Run(b, events), spent + RunTokens(b, events))
    decreases |events|
  {
    if events != [] {
      StepConserves(b, events[0], spent);
      RunConserves(Step(b, events[0]), events[1..], spent + AcceptedTokens(b, events[0]));
    }
  }

  /** Over every run from the start: total agent usage is all tokens accepted, and the closed
      set is exactly the open transcripts flagged closed. */
  lemma Conservation(limits: Limits, events: seq<Event>)
    ensures Conserved(Run(Fresh(limits), events), RunTokens(Fresh(limits), events))
  {
    var b := Fresh(limits);
    forall agent ensures OpenTokens(b.open, agent) <= Used(b.usage.agent, agent) {
      assert AgentTokens(b.open, agent) == map[];
    }
    RunConserves(b, events, 0);
  }

  /** Spending no more than was estimated, with nothing in between, keeps an automatic
      request within its limits. */
  lemma AdmittedSpendingWithin(b: Books, c: Context, estimate: real, tokens: real)
    requires BlockReason(b, c, Amount(estimate)).None? && !c.Manual() && tokens <= estimate
    requires c.transcriptId in b.open ==> b.open[c.transcriptId].context == c && !b.open[c.transcriptId].closed
    ensures Within(Step(Step(b, Admit(c, estimate)), Consume(c.transcriptId, tokens)), c, 0)
  {
    AdmittedExactly(b, c, Amount(estimate));
  }

  // ---- what a scope's use adds up to ----------------------------------------------------------

  datatype Scope = AgentScope(name: string) | ProjectScope(name: string) | ProviderScope(name: string)

  function UsedIn(b: Books, scope: Scope): nat {
    match scope
    case AgentScope(name) => Used(b.usage.agent, name)
    case ProjectScope(name) => Used(b.usage.project, name)
    case ProviderScope(name) => Used(b.usage.provider, name)
  }

  predicate Limited(b: Books, scope: Scope) {
    match scope
    case AgentScope(name) => name in b.limits.agent
    case ProjectScope(name) => name in b.limits.project
    case ProviderScope(name) => name in b.limits.provider
  }

  function LimitOf(b: Books, scope: Scope): nat
    requires Limited(b, scope)
  {
    match scope
    case AgentScope(name) => b.limits.agent[name]
    case ProjectScope(name) => b.limits.project[name]
    case ProviderScope(name) => b.limits.provider[name]
  }

  predicate WithinLimit(b: Books, scope: Scope) {
    Limited(b, scope) ==> UsedIn(b, scope) <= LimitOf(b, scope)
  }

  /** What is spent in this context counts for the scope. */
  predicate ChargedTo(c: Context, scope: Scope) {
    match scope
    case AgentScope(name) => c.agent == name
    case ProjectScope(name) => c.project == Some(name)
    case ProviderScope(name) => c.provider == Some(name)
  }

  /** What one call adds to the use of a scope. */
  function Bill(b: Books, e: Event, scope: Scope): nat {
    if e.Consume? && Charges(b, e.transcriptId) && ChargedTo(b.open[e.transcriptId].context, scope) then Amount(e.tokens) else 0
  }

  function RunBill(b: Books, events: seq<Event>, scope: Scope): nat
    decreases |events|
  {
    if events == [] then 0 else Bill(b, events[0], scope) + RunBill(Step(b, events[0]), events[1..], scope)
  }

  /** Within its limits means: within the limit of every scope the transcript is charged to. */
  lemma WithinEveryScope(b: Books, c: Context, amount: nat)
    ensures Within(b, c, amount)
       <==> forall scope :: ChargedTo(c, scope) && Limited(b, scope) ==> UsedIn(b, scope) + amount <= LimitOf(b, scope)
  {
    if forall scope :: ChargedTo(c, scope) && Limited(b, scope) ==> UsedIn(b, scope) + amount <= LimitOf(b, scope) {
      assert ChargedTo(c, AgentScope(c.agent));
      assert c.project.Some? ==> ChargedTo(c, ProjectScope(c.project.value));
      assert c.provider.Some? ==> ChargedTo(c, ProviderScope(c.provider.value));
    }
  }

  lemma StepUse(b: Books, e: Event, scope: Scope)
    ensures UsedIn(Step(b, e), scope) == UsedIn(b, scope) + Bill(b, e, scope)
  {
  }

  /** Over every run of calls a scope's use grows by exactly the tokens accepted from the
      transcripts charged to it. */
  lemma {:induction false} RunUse(b: Books, events: seq<Event>, scope: Scope)
    ensures UsedIn(Run(b, events), scope) == UsedIn(b, scope) + RunBill(b, events, scope)
    decreases |events|
  {
    if events != [] {
      StepUse(b, events[0], scope);
      RunUse(Step(b, events[0]), events[1..], scope);
    }
  }

  datatype Spend = Spend(transcriptId: string, tokens: real)

  function Consumes(spends: seq<Spend>): seq<Event> {
    seq(|spends|, i requires 0 <= i < |spends| => Consume(spends[i].transcriptId, spends[i].tokens))
  }

  /** The tokens of the spends charged to the scope, by what is open before the first of them. */
  function SpendBill(b: Books, spends: seq<Spend>, scope: Scope): nat {
    if spends == [] then 0
    else Bill(b, Consume(spends[0].transcriptId, spends[0].tokens), scope) + SpendBill(b, spends[1..], scope)
  }

  /** Spending opens and closes nothing and moves no transcript to another context. */
  predicate SameContexts(b: Books, c: Books) {
    && b.limits == c.limits && b.open.Keys == c.open.Keys
    && forall id :: id in b.open ==> b.open[id].context == c.open[id].context && b.open[id].closed == c.open[id].closed
  }

  lemma {:induction false} SpendBillSame(b: Books, c: Books, spends: seq<Spend>, scope: Scope)
    requires SameContexts(b, c)
    ensures SpendBill(b, spends, scope) == SpendBill(c, spends, scope)
  {
    if spends != [] {
      SpendBillSame(b, c, spends[1..], scope);
    }
  }

  lemma ConsumesStep(spends: seq<Spend>)
    requires spends != []
    ensures Consumes(spends)[0] == Consume(spends[0].transcriptId, spends[0].tokens)
    ensures Consumes(spends)[1..] == Consumes(spends[1..])
  {
  }

  /** Any spends, of any transcripts: a scope ends with its use before and the tokens of the
      spends charged to it, so it ends within its limit exactly if they still fit. */
  lemma {:induction false} SpendsExactly(b: Books, spends: seq<Spend>, scope: Scope)
    ensures var after := Run(b, Consumes(spends));
            && UsedIn(after, scope) == UsedIn(b, scope) + SpendBill(b, spends, scope)
            && SameContexts(b, after)
            && (WithinLimit(after, scope)
                <==> (Limited(b, scope) ==> UsedIn(b, scope) + SpendBill(b, spends, scope) <= LimitOf(b, scope)))
    decreases |spends|
  {
    if spends != [] {
      var e := Consume(spends[0].transcriptId, spends[0].tokens);
      ConsumesStep(spends);
      StepUse(b, e, scope);
      SpendsExactly(Step(b, e), spends[1..], scope);
      SpendBillSame(b, Step(b, e), spends[1..], scope);
    }
  }

  // ---- what admissions allow together ---------------------------------------------------------

  datatype Estimate = Estimate(context: Context, tokens: real)

  /** Each request is admitted on the books as they are. */
  predicate Admissible(b: Books, requests: seq<Estimate>) {
    forall r :: r in requests ==> BlockReason(b, r.context, Amount(r.tokens)).None?
  }

  function Admits(requests: seq<Estimate>): seq<Event> {
    seq(|requests|, i requires 0 <= i < |requests| => Admit(requests[i].context, requests[i].tokens))
  }

  function FullSpends(requests: seq<Estimate>): seq<Spend> {
    seq(|requests|, i requires 0 <= i < |requests| => Spend(requests[i].context.transcriptId, requests[i].tokens))
  }

  /** What the requests charged to the scope are estimated at together. A transcript that is
      open already is charged to the context it was opened with. */
  function Estimated(b: Books, requests: seq<Estimate>, scope: Scope): nat
    decreases |requests|
  {
    if requests == [] then 0
    else
      var r := requests[0];
      var next := Opened(b, r.context);
      (if ChargedTo(next.open[r.context.transcriptId].context, scope) then Amount(r.tokens) else 0)
      + Estimated(next, requests[1..], scope)
  }

  lemma AdmitsStep(requests: seq<Estimate>)
    requires requests != []
    ensures Admits(requests)[0] == Admit(requests[0].context, requests[0].tokens)
    ensures Admits(requests)[1..] == Admits(requests[1..])
  {
  }

  predicate StillOpen(open: map<string, OpenBudget>, later: map<string, OpenBudget>) {
    forall id :: id in open ==> id in later && later[id] == open[id]
  }

  /** Admissions change no use and no limit: each is decided as if it were alone. */
  lemma {:induction false} AdmittedTogether(b: Books, requests: seq<Estimate>)
    requires Admissible(b, requests) && ClosedFlagged(b.open, b.closed)
    ensures var admitted := Run(b, Admits(requests));
            && admitted.usage == b.usage && admitted.limits == b.limits && admitted.closed == b.closed
            && ClosedFlagged(admitted.open, admitted.closed) && StillOpen(b.open, admitted.open)
            && forall r :: r in requests ==> Charges(admitted, r.context.transcriptId)
    decreases |requests|
  {
    if requests != [] {
      var r := requests[0];
      AdmitsStep(requests);
      FirstAdmitted(b, requests);
      AdmittedTogether(Opened(b, r.context), requests[1..]);
      assert requests == [r] + requests[1..];
    }
  }

  lemma FirstAdmitted(b: Books, requests: seq<Estimate>)
    requires Admissible(b, requests) && ClosedFlagged(b.open, b.closed) && requests != []
    ensures var r := requests[0];
            var next := Opened(b, r.context);
            && Step(b, Admit(r.context, r.tokens)) == next && Admissible(next, requests[1..])
            && ClosedFlagged(next.open, next.closed) && StillOpen(b.open, next.open) && Charges(next, r.context.transcriptId)
  {
    assert requests[0] in requests;
  }

  lemma {:induction false} FullBill(b: Books, requests: seq<Estimate>, later: Books, scope: Scope)
    requires Admissible(b, requests) && ClosedFlagged(b.open, b.closed)
    requires StillOpen(Run(b, Admits(requests)).open, later.open)
    ensures SpendBill(later, FullSpends(requests), scope) == Estimated(b, requests, scope)
    decreases |requests|
  {
    if requests != [] {
      var next := Opened(b, requests[0].context);
      AdmitsStep(requests);
      FirstAdmitted(b, requests);
      AdmittedTogether(next, requests[1..]);
      FullBill(next, requests[1..], later, scope);
      assert FullSpends(requests)[1..] == FullSpends(requests[1..]);
    }
  }

  /** Requests that are admitted one after the other and spend their estimates in full leave
      a limited scope within its limit exactly if its use and all their estimates together
      fit; that each fits alone, which is what admission asks, is not enough. */
  lemma AdmittedSpentExactly(b: Books, requests: seq<Estimate>, scope: Scope)
    requires Admissible(b, requests) && ClosedFlagged(b.open, b.closed)
    ensures var after := Run(Run(b, Admits(requests)), Consumes(FullSpends(requests)));
            && UsedIn(after, scope) == UsedIn(b, scope) + Estimated(b, requests, scope)
            && (WithinLimit(after, scope)
                <==> (Limited(b, scope) ==> UsedIn(b, scope) + Estimated(b, requests, scope) <= LimitOf(b, scope)))
  {
    AdmittedTogether(b, requests);
    var admitted := Run(b, Admits(requests));
    FullBill(b, requests, admitted, scope);
    SpendsExactly(admitted, FullSpends(requests), scope);
  }

  const First: Context := Context("a", "agent", None, None, false, false, Some(true))
  const Second: Context := First.(transcriptId := "b")
  const Tight: Books := Fresh(Limits(map["agent" := 10], map[], map[]))
  const Pair: seq<Estimate> := [Estimate(First, 6.0), Estimate(Second, 6.0)]

  /** An admission reserves nothing: two that fit alone overrun the limit together. */
  lemma AdmissionsDoNotReserve()
    ensures Admissible(Tight, Pair) && ClosedFlagged(Tight.open, Tight.closed)
    ensures !WithinLimit(Run(Run(Tight, Admits(Pair)), Consumes(FullSpends(Pair))), AgentScope("agent"))
  {
    assert Amount(6.0) == 6;
    assert Pair[1..] == [Estimate(Second, 6.0)] && Pair[1..][1..] == [];
    assert Estimated(Opened(Tight, First), Pair[1..], AgentScope("agent")) == 6;
    assert Estimated(Tight, Pair, AgentScope("agent")) == 12;
    AdmittedSpentExactly(Tight, Pair, AgentScope("agent"));
  }

  /** A refused admission changes nothing; an admitted one opens the transcript, with nothing
      consumed, if it is not open yet. */
  lemma AdmitOpens(b: Books, c: Context, estimate: real)
    ensures var t := Step(b, Admit(c, estimate));
            && (BlockReason(b, c, Amount(estimate)).Some? ==> t == b)
            && (BlockReason(b, c, Amount(estimate)).None? ==>
                  && t.usage == b.usage && t.limits == b.limits && t.closed == b.closed
                  && t.open == if c.transcriptId in b.open then b.open
                               else b.open[c.transcriptId := OpenBudget(c, 0, false)])
  {
  }

  /** New limits judge the next request, and nothing else changes. */
  lemma NewLimitsJudge(b: Books, limits: Limits, c: Context, amount: nat)
    ensures var t := Step(b, UpdateLimits(limits));
            && t.usage == b.usage && t.open == b.open && t.closed == b.closed
            && (c.automatic == Some(true) && !c.explicitSelector && !c.manualCloud && c.transcriptId !in b.closed ==>
                  (BlockReason(t, c, amount).None?
                   <==> && (c.agent in limits.agent ==> Used(b.usage.agent, c.agent) + amount <= limits.agent[c.agent])
                        && ScopeWithin(b.usage.project, limits.project, c.project, amount)
                        && ScopeWithin(b.usage.provider, limits.provider, c.provider, amount)))
  {
  }

  // ---- one transcript's account ---------------------------------------------------------------------------

  /** The tokens accepted from one transcript over a run. */
  function OwnTokens(b: Books, events: seq<Event>, id: string): nat
    decreases |events|
  {
    if events == [] then 0
    else
      (if events[0].Consume? && events[0].transcriptId == id then AcceptedTokens(b, events[0]) else 0)
      + OwnTokens(Step(b, events[0]), events[1..], id)
  }

  /** Until it is resumed an open transcript's account is what it was and every token accepted
      from it since, charged to the context it was opened with. */
  lemma {:induction false} AccountExactly(b: Books, id: string, events: seq<Event>)
    requires id in b.open && forall i :: 0 <= i < |events| ==> events[i] != Resume(id)
    ensures var t := Run(b, events);
            && id in t.open && t.open[id].context == b.open[id].context
            && t.open[id].consumedTokens == b.open[id].consumedTokens + OwnTokens(b, events, id)
    decreases |events|
  {
    if events != [] {
      StepAccount(b, id, events[0]);
      AccountExactly(Step(b, events[0]), id, events[1..]);
    }
  }

  lemma StepAccount(b: Books, id: string, e: Event)
    requires id in b.open && e != Resume(id)
    ensures var t := Step(b, e);
            && id in t.open && t.open[id].context == b.open[id].context
            && t.open[id].consumedTokens == b.open[id].consumedTokens
                 + if e.Consume? && e.transcriptId == id then AcceptedTokens(b, e) else 0
  {
  }

  // ---- closed transcripts ----------------------------------------------------------------------------------

  predicate Shut(b: Books, id: string, o: OpenBudget) {
    id in b.closed && id in b.open && b.open[id] == o && o.closed
  }

  lemma StepShut(b: Books, id: string, o: OpenBudget, e: Event)
    requires Shut(b, id, o) && e != Resume(id)
    ensures Shut(Step(b, e), id, o)
  {
  }

  lemma {:induction false} RunShut(b: Books, id: string, o: OpenBudget, events: seq<Event>)
    requires Shut(b, id, o) && forall i :: 0 <= i < |events| ==> events[i] != Resume(id)
    ensures Shut(Run(b, events), id, o)
    decreases |events|
  {
    if events != [] {
      StepShut(b, id, o, events[0]);
      RunShut(Step(b, events[0]), id, o, events[1..]);
    }
  }

  /** From its close to its resume an open transcript is neither admitted, manual or not, nor
      charged, whatever else is called; its own account stays as it was closed. */
  lemma ClosedUntilResume(b: Books, id: string, events: seq<Event>, c: Context, amount: nat, tokens: real)
    requires id in b.open && c.transcriptId == id && forall i :: 0 <= i < |events| ==> events[i] != Resume(id)
    ensures var t := Run(Step(b, Close(id)), events);
            && BlockReason(t, c, amount).Some?
            && Step(t, Consume(id, tokens)) == t && AcceptedTokens(t, Consume(id, tokens)) == 0
            && id in t.open && t.open[id].context == b.open[id].context
            && t.open[id].consumedTokens == b.open[id].consumedTokens
  {
    RunShut(Step(b, Close(id)), id, b.open[id].(closed := true), events);
  }

  /** Resuming forgets the transcript: its next request is judged, and charged, as a new one,
      while what it used stays used. */
  lemma ResumeStartsAfresh(b: Books, id: string, c: Context, estimate: real)
    requires c.transcriptId == id
    ensures var t := Step(b, Resume(id));
            var u := Step(t, Admit(c, estimate));
            && t.usage == b.usage && BlockReason(t, c, Amount(estimate)) != Some(TranscriptBudgetClosed)
            && (BlockReason(t, c, Amount(estimate)).None? ==> u.open == b.open[id := OpenBudget(c, 0, false)])
  {
  }

  // ---- the manager ---------------------------------------------------------------------------------------

  class BudgetManager {
    var limits: Limits
    var usage: Usage
    var open: map<string, OpenBudget>
    var closed: set<string>
    ghost var spent: nat

    constructor (limits: Limits)
      ensures Now() == Fresh(limits) && spent == 0 && Valid()
    {
      this.limits, usage, open, closed, spent := limits, Usage(map[], map[], map[]), map[], {}, 0;
      new;
      Conservation(limits, []);
    }

    function Now(): Books
      reads this
    {
      Books(limits, usage, open, closed)
    }

    ghost predicate Valid()
      reads this
    {
      Conserved(Now(), spent)
    }

    method UpdateLimits(limits: Limits)
      requires Valid()
      modifies this`limits
      ensures Valid() && Now() == Step(old(Now()), Event.UpdateLimits(limits))
    {
      StepConserves(Now(), Event.UpdateLimits(limits), spent);
      this.limits := limits;
    }

    method Admit(c: Context, estimate: real) returns (r: Admission)
      requires Valid()
      modifies this`open
      ensures Valid() && Now() == Step(old(Now()), Event.Admit(c, estimate))
      ensures r.allowed <==> c.transcriptId !in closed && (r.manual || Within(old(Now()), c, Amount(estimate)))
      ensures r.manual == (c.explicitSelector || c.manualCloud || c.automatic == Some(false)) && r.reason == BlockReason(old(Now()), c, Amount(estimate))
    {
      StepConserves(Now(), Event.Admit(c, estimate), spent);
      AdmittedExactly(Now(), c, Amount(estimate));
      var manual := c.Manual();
      if c.transcriptId in closed {
        return Admission(false, manual, Some(TranscriptBudgetClosed));
      }
      if !manual && WouldExceed(Now(), c, 0) {
        return Admission(false, manual, Some(EnvelopeBreached));
      }
      if !manual && WouldExceed(Now(), c, Amount(estimate)) {
        return Admission(false, manual, Some(EnvelopeWouldBeExceeded));
      }
      if c.transcriptId !in open {
        open := open[c.transcriptId := OpenBudget(c, 0, false)];
      }
      return Admission(true, manual, None);
    }

    method Observe(c: Context, estimate: real) returns (r: Observation)
      requires Valid()
      modifies this`open
      ensures Valid() && Now() == Step(old(Now()), Event.Observe(c, estimate))
      ensures r.manual == c.Manual() && r.wouldBlockReason == BlockReason(old(Now()), c, Amount(estimate))
    {
      StepConserves(Now(), Event.Observe(c, estimate), spent);
      r := Observation(c.Manual(), BlockReason(Now(), c, Amount(estimate)));
      if c.transcriptId !in open {
        open := open[c.transcriptId := OpenBudget(c, 0, false)];
      }
    }

    method Consume(transcriptId: string, tokens: real) returns (r: Usage)
      requires Valid()
      modifies this`open, this`usage, this`spent
      ensures Valid() && Now() == Step(old(Now()), Event.Consume(transcriptId, tokens)) && r == usage
      ensures spent == old(spent) + AcceptedTokens(old(Now()), Event.Consume(transcriptId, tokens))
    {
      ghost var before, accepted := Now(), AcceptedTokens(Now(), Event.Consume(transcriptId, tokens));
      StepConserves(before, Event.Consume(transcriptId, tokens), spent);
      spent := spent + accepted;
      var amount := Amount(tokens);
      if transcriptId !in open || open[transcriptId].closed {
        return usage;
      }
      var budget := open[transcriptId];
      open := open[transcriptId := budget.(consumedTokens := budget.consumedTokens + amount)];
      Charge(budget.context, amount);
      assert Now() == Step(before, Event.Consume(transcriptId, tokens));
      return usage;
    }

    method Charge(c: Context, amount: nat)
      modifies this`usage
      ensures usage == Charged(old(usage), c, amount)
    {
      usage := usage.(agent := Add(usage.agent, Some(c.agent), amount));
      if c.project.Some? {
        usage := usage.(project := Add(usage.project, c.project, amount));
      }
      if c.provider.Some? {
        usage := usage.(provider := Add(usage.provider, c.provider, amount));
      }
    }

    method Close(transcriptId: string) returns (r: Option<Closure>)
      requires Valid()
      modifies this`open, this`closed
      ensures Valid() && Now() == Step(old(Now()), Event.Close(transcriptId))
      ensures r.Some? <==> transcriptId in old(open)
      ensures r.Some? ==> var o := old(open)[transcriptId];
                          r.value == Closure(transcriptId, o.context.agent, o.context.project, o.context.provider, o.consumedTokens)
    {
      StepConserves(Now(), Event.Close(transcriptId), spent);
      if transcriptId !in open {
        return None;
      }
      var budget := open[transcriptId];
      open := open[transcriptId := budget.(closed := true)];
      closed := closed + {transcriptId};
      return Some(Closure(transcriptId, budget.context.agent, budget.context.project, budget.context.provider, budget.consumedTokens));
    }

    method Resume(transcriptId: string)
      requires Valid()
      modifies this`open, this`closed
      ensures Valid() && Now() == Step(old(Now()), Event.Resume(transcriptId))
    {
      StepConserves(Now(), Event.Resume(transcriptId), spent);
      closed := closed - {transcriptId};
      open := open - {transcriptId};
    }
  }
}
