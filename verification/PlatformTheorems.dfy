/** The guarantees of the platform, for every run of sessions, calls, outages and transactions. */
module PlatformTheorems {
  import opened Domain
  import opened PolicyEngine
  import opened Store
  import opened StoreInvariant
  import opened StoreChain
  import opened Linearizability
  import opened LedgerTheorems
  import opened GuardedAction
  import opened Platform
  import opened PlatformInvariant
  import Session

  lemma ReachableWorld(st: Settings, run: seq<Step>)
    requires CanRun(st, QUIET, run)
    ensures WorldOk(st, Ran(st, QUIET, run))
  {
    InvInit(st.store);
    WorldOkAlways(st, QUIET, run);
  }

  // ---------- the steps of a call are those of the façade ----------

  /** The call is asked about as its session stands, or the façade's first test has stopped it. */
  lemma DecidingIsTheFacade(st: Settings, w: World, c: nat, answered: bool, id: Uuid)
    requires Can(st, w, Decide(c, answered, id))
    ensures var call, w' := w.calls[c], Do(st, w, Decide(c, answered, id));
            var decision := if answered then Some(Recommend(ActionOf(call.tool), call.seen.identityVerified)) else None;
            if ConfidenceOf(decision) < st.confidence
            then w'.db == w.db && w'.calls[c].stage.Over?
                 && forall policy :: RulingOn(decision, st.confidence, policy) == Stop(w'.calls[c].stage.outcome)
            else w'.calls[c].stage == Judging(|w.db.txs|)
                 && w'.db == Submit(w.db, Judge(VerdictRowFor(st.thresholds, Judged(call.seen, call.tool), id)))
  {
    ToolContextIsFaithful(w.calls[c].seen, w.calls[c].tool);
  }

  /** At the configured confidence a tool call reaches policy exactly when the decision service answers:
      its answer stops no tool, verified caller or not. */
  lemma DecisionStopsOnlyOutages(st: Settings, w: World, c: nat, answered: bool, id: Uuid)
    requires 0.0 < st.confidence <= 0.6 && Can(st, w, Decide(c, answered, id))
    ensures Do(st, w, Decide(c, answered, id)).calls[c].stage.Judging? <==> answered
  {
    var call := w.calls[c];
    DecisionGate(ActionOf(call.tool), call.seen.identityVerified, st.confidence);
    DecidingIsTheFacade(st, w, c, answered, id);
  }

  /** A decision or a verdict that does not arrive escalates the call, whatever was decided. */
  lemma OutagesEscalate(st: Settings, w: World, c: nat, id: Uuid)
    requires c < |w.calls|
    ensures st.confidence > 0.0 && Can(st, w, Decide(c, false, id)) ==>
              var stage := Do(st, w, Decide(c, false, id)).calls[c].stage; stage.Over? && stage.outcome.EscalatedBy?
    ensures Can(st, w, LoseVerdict(c)) ==>
              var stage := Do(st, w, LoseVerdict(c)).calls[c].stage; stage.Over? && stage.outcome.EscalatedBy?
  {
  }

  /** Consents, retention runs and outbound verdicts can begin at any time, beside any calls. */
  lemma BackgroundIsAlwaysPossible(st: Settings, w: World, job: Job)
    requires !job.Execute? && (job.Judge? ==> job.verdictRow.outbound && FreshVerdictId(w.db, job))
    ensures Can(st, w, Background(job)) && Do(st, w, Background(job)) == w.(db := Submit(w.db, job))
  {
  }

  /** The answer that a judged transaction gives to the policy client. */
  function PolicyAnswerOf(row: VerdictRow): PolicyAnswer {
    PolicyAnswer(row.verdict, row.ruleId, Some(row.id))
  }

  /** A verdict that arrives, or is lost, takes the call where the façade goes with the same answers: to the
      same outcome, or to the same request under the session's key. */
  lemma RulingIsTheFacade(st: Settings, w: World, c: nat, newKey: Key, decision: Option<real>)
    requires Can(st, w, ReceiveVerdict(c, newKey)) && ConfidenceOf(decision) >= st.confidence
    ensures var call, w' := w.calls[c], Do(st, w, ReceiveVerdict(c, newKey));
            var action := ActionOf(call.tool);
            match RulingOn(decision, st.confidence, Some(PolicyAnswerOf(w.db.txs[call.stage.judge].job.verdictRow)))
            case Stop(o) => w'.calls[c].stage == Over(o) && w'.db == w.db && w'.sessions == w.sessions
            case Go(id) =>
              && w'.calls[c].stage == Executing(|w.db.txs|)
              && w'.sessions[call.session] == Session.Step(w.sessions[call.session], Session.Keyed(action, newKey))
              && w'.db == Submit(w.db, Execute(RequestFor(ContextOf(call), action, PayloadOf(call.tool),
                                                          w'.sessions[call.session].keys[action], id)))
    ensures Do(st, w, LoseVerdict(c)).calls[c].stage == Over(RulingOn(decision, st.confidence, None).outcome)
  {
  }

  lemma ReportingIsTheFacade(st: Settings, w: World, c: nat, answer: nat)
    requires Can(st, w, ReceiveResult(c, answer))
    ensures Do(st, w, ReceiveResult(c, answer)).calls[c].stage == Over(Report(Some(w.db.answers[answer].response)))
    ensures Do(st, w, LoseResult(c)).calls[c].stage == Over(Report(None))
  {
  }

  // ---------- the store of the platform is a store run ----------

  lemma StoreStepOf(st: Settings, w: World, step: Step) returns (events: seq<Event>)
    requires Can(st, w, step)
    ensures |events| <= 1 && Legal(st.store, w.db, events)
    ensures After(st.store, w.db, events) == Do(st, w, step).db
  {
    if step.Service? {
      events := [step.e];
    } else {
      StoreOfStep(st, w, step);
      if Do(st, w, step).db == w.db {
        events := [];
      } else {
        var job :| Do(st, w, step).db == Submit(w.db, job) && FreshVerdictId(w.db, job);
        events := [Begin(job)];
      }
    }
  }

  /** Whatever the platform does to the store is a run of its transactions, so every guarantee of
      the ledger holds of it: one answer for each key, the bound on dispatches, the intact chain. */
  lemma {:induction false} StoreRunOf(st: Settings, w: World, run: seq<Step>) returns (events: seq<Event>)
    requires CanRun(st, w, run)
    ensures Legal(st.store, w.db, events) && After(st.store, w.db, events) == Ran(st, w, run).db
    decreases |run|
  {
    if run == [] {
      events := [];
    } else {
      var first := StoreStepOf(st, w, run[0]);
      var rest := StoreRunOf(st, Do(st, w, run[0]), run[1..]);
      events := first + rest;
      if first == [] {
        assert events == rest;
      } else {
        assert events[1..] == rest && first[1..] == [];
      }
    }
  }

  // ---------- nothing executes without a persisted AUTHORIZED verdict ----------

  /** The verdict that authorizes a request: for its action, session and resolved customer, on a verified
      identity with no escalation trigger, and for a payment confirmed and within the cap. */
  ghost predicate Authorizes(st: Settings, row: VerdictRow, req: Request) {
    && row.id == req.verdictId && row.verdict.Authorized? && !row.outbound
    && row.action == req.action && row.session == req.session && row.customer == req.customer && req.customer.Some?
    && row.snapshot.Some? && row.snapshot.value.identityVerified && !Mandatory(row.snapshot.value)
    && (req.action.ExecutePayment? ==>
          && row.snapshot.value.paymentConfirmed
          && row.snapshot.value.amount == Some(MoneyOf(req.payload, Amount))
          && MoneyOf(req.payload, Amount) <= st.thresholds.paymentCap)
  }

  lemma GrantIsAuthorized(st: Settings, w: World, c: nat, req: Request) returns (i: nat)
    requires Grants(st, w, c, req) && AllWellKept(w)
    ensures i < |w.db.tables.verdicts| && Authorizes(st, w.db.tables.verdicts[i], req)
  {
    var call := w.calls[c];
    var ctx := Judged(call.seen, call.tool);
    AuthorizedExactlyWhen(ctx, st.thresholds);
    var row := VerdictRowFor(st.thresholds, ctx, req.verdictId);
    i :| 0 <= i < |w.db.tables.verdicts| && w.db.tables.verdicts[i] == row;
  }

  lemma CommittedIsGranted(st: Settings, w: World, i: nat) returns (c: nat)
    requires RowsOk(w.db) && GrantsOk(st, w) && i < |w.db.tables.actions|
    ensures Grants(st, w, c, w.db.tables.actions[i].req)
  {
    var row := w.db.tables.actions[i];
    assert RowOk(w.db, row);
    assert Granted(st, w, w.db.txs[row.id].job.req);
    c :| Grants(st, w, c, row.req);
  }

  lemma SameIdSameVerdict(st: Settings, db: Db, i: nat, j: nat)
    requires VerdictsOk(st, db) && i < |db.tables.verdicts| && j < |db.tables.verdicts|
    requires db.tables.verdicts[i].id == db.tables.verdicts[j].id
    ensures db.tables.verdicts[i] == db.tables.verdicts[j]
  {
    assert VerdictOfTx(db, db.tables.verdicts[i]) && VerdictOfTx(db, db.tables.verdicts[j]);
    var u :| 0 <= u < |db.txs| && db.txs[u].stage.Committed? && db.txs[u].job == Judge(db.tables.verdicts[i]);
    var v :| 0 <= v < |db.txs| && db.txs[v].stage.Committed? && db.txs[v].job == Judge(db.tables.verdicts[j]);
    assert u < v || v < u || u == v;
  }

  /** End to end: in every reachable state every committed action points to a persisted verdict, and
      whatever row has that id authorizes exactly this action. */
  lemma EveryActionWasAuthorized(st: Settings, run: seq<Step>, i: nat)
    requires CanRun(st, QUIET, run) && i < |Ran(st, QUIET, run).db.tables.actions|
    ensures var tables := Ran(st, QUIET, run).db.tables;
            && VerdictExists(tables.verdicts, tables.actions[i].req.verdictId)
            && forall j :: 0 <= j < |tables.verdicts| && tables.verdicts[j].id == tables.actions[i].req.verdictId ==>
                 Authorizes(st, tables.verdicts[j], tables.actions[i].req)
  {
    ReachableWorld(st, run);
    var w := Ran(st, QUIET, run);
    var c := CommittedIsGranted(st, w, i);
    var k := GrantIsAuthorized(st, w, c, w.db.tables.actions[i].req);
    forall j | 0 <= j < |w.db.tables.verdicts| && w.db.tables.verdicts[j].id == w.db.tables.actions[i].req.verdictId
      ensures Authorizes(st, w.db.tables.verdicts[j], w.db.tables.actions[i].req)
    {
      SameIdSameVerdict(st, w.db, k, j);
    }
  }

  /** The row is what this call asked for: its session, its action, its payload, under a persisted verdict
      on exactly its context. */
  ghost predicate CarriesTheCall(st: Settings, w: World, call: Call, row: ActionRow) {
    && row.req.session == call.seen.id && row.req.action == ActionOf(call.tool)
    && row.req.payload == PayloadOf(call.tool)
    && AuthorizedFor(st, w.db, Judged(call.seen, call.tool), row.req.verdictId)
  }

  ghost predicate RowCarriesTheCall(st: Settings, w: World, call: Call, reference: string) {
    exists i :: 0 <= i < |w.db.tables.actions|
      && w.db.tables.actions[i].reference == Some(reference) && CarriesTheCall(st, w, call, w.db.tables.actions[i])
  }

  lemma OwnRowCarriesTheCall(st: Settings, w: World, c: nat, reference: string)
    requires c < |w.calls| && CallOk(st, w, c) && DeliveredOwn(st, w, c, reference)
    ensures RowCarriesTheCall(st, w, w.calls[c], reference)
  {
    var i :| 0 <= i < |w.db.tables.actions| && IsOwnRow(st, w, c, reference, i);
    assert CarriesTheCall(st, w, w.calls[c], w.db.tables.actions[i]);
  }

  lemma ReachableCall(st: Settings, run: seq<Step>, c: nat)
    requires CanRun(st, QUIET, run) && c < |Ran(st, QUIET, run).calls|
    ensures CallOk(st, Ran(st, QUIET, run), c)
  {
    ReachableWorld(st, run);
  }

  /** The worker only tells the caller that an action was executed when a committed row of this session and
      action carries the reference it gives, and, unless it was a replay, this call's own payload and
      verdict. */
  lemma ExecutedOutcomeIsTrue(st: Settings, run: seq<Step>, c: nat)
    requires CanRun(st, QUIET, run) && c < |Ran(st, QUIET, run).calls|
    requires Ran(st, QUIET, run).calls[c].stage.Over? && Ran(st, QUIET, run).calls[c].stage.outcome.Executed?
    ensures var w := Ran(st, QUIET, run);
            var call, o := w.calls[c], w.calls[c].stage.outcome;
            && o.action == ActionOf(call.tool) && Delivered(w.db, call.seen.id, o.action, o.reference)
            && (!o.replay ==> RowCarriesTheCall(st, w, call, o.reference))
  {
    ReachableCall(st, run, c);
    var w := Ran(st, QUIET, run);
    var o := w.calls[c].stage.outcome;
    if !o.replay {
      OwnRowCarriesTheCall(st, w, c, o.reference);
    }
  }

  /** What was asked was done: a committed row of the session and action carries the reported reference and
      the payload of the call. */
  ghost predicate DoneAsAsked(w: World, call: Call, o: Outcome)
    requires o.Executed?
  {
    exists i :: 0 <= i < |w.db.tables.actions| && AsAsked(w.db.tables.actions[i], call, o)
  }

  ghost predicate AsAsked(row: ActionRow, call: Call, o: Outcome)
    requires o.Executed?
  {
    && row.req.session == call.seen.id && row.req.action == o.action && row.reference == Some(o.reference)
    && row.req.payload == PayloadOf(call.tool)
  }

  /** The key of a session and action is the same for every payload, so a repeated call is answered by the
      first: what it asked was done exactly when the one committed row of its session and action carries
      its payload. When it was no replay, it was. */
  lemma DoneExactlyWhen(st: Settings, run: seq<Step>, c: nat, i: nat)
    requires CanRun(st, QUIET, run) && c < |Ran(st, QUIET, run).calls| && i < |Ran(st, QUIET, run).db.tables.actions|
    requires Ran(st, QUIET, run).calls[c].stage.Over? && Ran(st, QUIET, run).calls[c].stage.outcome.Executed?
    requires var call, row := Ran(st, QUIET, run).calls[c], Ran(st, QUIET, run).db.tables.actions[i];
             row.req.session == call.seen.id && row.req.action == ActionOf(call.tool)
    ensures var w := Ran(st, QUIET, run);
            var call, o, row := w.calls[c], w.calls[c].stage.outcome, w.db.tables.actions[i];
            && row.reference == Some(o.reference)
            && (DoneAsAsked(w, call, o) <==> row.req.payload == PayloadOf(call.tool))
            && (!o.replay ==> DoneAsAsked(w, call, o))
  {
    ExecutedOutcomeIsTrue(st, run, c);
    var w := Ran(st, QUIET, run);
    var call, o, actions := w.calls[c], w.calls[c].stage.outcome, w.db.tables.actions;
    forall j: nat | j < |actions| && actions[j].req.session == call.seen.id && actions[j].req.action == o.action
      ensures j == i
    {
      OneRowPerSessionAndAction(st, run, j, i);
    }
    if !o.replay {
      var j :| 0 <= j < |actions|
        && actions[j].reference == Some(o.reference) && CarriesTheCall(st, w, call, actions[j]);
      assert AsAsked(actions[j], call, o);
    }
    if actions[i].req.payload == PayloadOf(call.tool) {
      assert AsAsked(actions[i], call, o);
    }
  }

  lemma {:induction false} ActionsStay(st: Settings, w: World, run: seq<Step>)
    requires CanRun(st, w, run)
    ensures w.db.tables.actions <= Ran(st, w, run).db.tables.actions
    decreases |run|
  {
    if run != [] {
      StoreGrows(st, w, run[0]);
      ActionsStay(st, Do(st, w, run[0]), run[1..]);
    }
  }

  /** Once an action is committed in a session, every call of it that is reported executed in any
      continuation gives that row's reference, and was done exactly when it asks for that row's payload. */
  lemma RepeatIsDoneExactlyWhen(st: Settings, before: seq<Step>, later: seq<Step>, c: nat, i: nat)
    requires CanRun(st, QUIET, before) && CanRun(st, Ran(st, QUIET, before), later)
    requires i < |Ran(st, QUIET, before).db.tables.actions|
    requires c < |Ran(st, Ran(st, QUIET, before), later).calls|
    requires var call := Ran(st, Ran(st, QUIET, before), later).calls[c];
             var row := Ran(st, QUIET, before).db.tables.actions[i];
             && call.stage.Over? && call.stage.outcome.Executed?
             && row.req.session == call.seen.id && row.req.action == ActionOf(call.tool)
    ensures var w, row := Ran(st, Ran(st, QUIET, before), later), Ran(st, QUIET, before).db.tables.actions[i];
            var call, o := w.calls[c], w.calls[c].stage.outcome;
            && row.reference == Some(o.reference)
            && (DoneAsAsked(w, call, o) <==> row.req.payload == PayloadOf(call.tool))
  {
    RunJoins(st, QUIET, before, later);
    ActionsStay(st, Ran(st, QUIET, before), later);
    DoneExactlyWhen(st, before + later, c, i);
  }

  // ---------- what each tool does ----------

  function AccountOf(cfg: Config, customer: Option<string>): Option<string> {
    if customer.Some? && customer.value in cfg.accounts then Some(cfg.accounts[customer.value]) else None
  }

  /** What a tool call leaves in its domain when it is projected: a payment the amount paid, a deferral a plan
      over the unpaid amount, a top-up its amount, a plan change the code asked for. */
  lemma WhatEachToolDoes(cfg: Config, call: Call, key: Key, id: Uuid, reference: string)
    ensures var known, tool := call.seen.customer, call.tool;
            var customer := if known.Some? then Some(known.value.id) else None;
            var line := if known.Some? then known.value.subscription else None;
            var account := AccountOf(cfg, customer);
            ProjectDomainEffect(cfg, RequestOf(call, key, id), reference) ==
            match tool
            case MakePayment(amount, _) =>
              if account.None? then [] else [Payment(account.value, customer.value, amount, reference, key)]
            case RequestDeferral(_, unpaid) =>
              if account.None? then [] else [PaymentPlan(account.value, customer.value, unpaid, id)]
            case UnblockSimCard => if line.None? then [] else [SimCase(line.value, UnblockSim, id, key)]
            case TopUpBy(amount) => if line.None? then [] else [Recharge(line.value, amount, reference, key)]
            case ToggleRoaming(_) => [Provisioning(line, ActivateRoaming, id, key)]
            case ChangePlanTo(code) =>
              [Provisioning(line, ChangePlan, id, key)]
              + if line.None? then [] else [PlanChange(line.value, Text(if code == "" then "unknown" else code))]
  {
  }

  // ---------- the payment bound ----------

  lemma SameSessionAndActionSameKey(st: Settings, w: World, c: nat, d: nat, req: Request, req': Request)
    requires SessionsOk(w) && CallsOk(st, w) && Grants(st, w, c, req) && Grants(st, w, d, req')
    requires req.session == req'.session && req.action == req'.action
    ensures req.key == req'.key
  {
    assert CallOk(st, w, c) && CallOk(st, w, d);
    assert w.sessions[w.calls[c].session].id == w.sessions[w.calls[d].session].id;
  }

  /** Retries and repeated calls included, a session has at most one row for each action. */
  lemma OneRowPerSessionAndAction(st: Settings, run: seq<Step>, i: nat, j: nat)
    requires CanRun(st, QUIET, run)
    requires i < |Ran(st, QUIET, run).db.tables.actions| && j < |Ran(st, QUIET, run).db.tables.actions|
    requires var actions := Ran(st, QUIET, run).db.tables.actions;
             actions[i].req.session == actions[j].req.session && actions[i].req.action == actions[j].req.action
    ensures i == j
  {
    ReachableWorld(st, run);
    var w := Ran(st, QUIET, run);
    var c := CommittedIsGranted(st, w, i);
    var d := CommittedIsGranted(st, w, j);
    SameSessionAndActionSameKey(st, w, c, d, w.db.tables.actions[i].req, w.db.tables.actions[j].req);
    assert i < j || j < i || i == j;
  }

  /** The total of the captured payments that carry one of the keys. */
  ghost function Captured(effects: seq<Effect>, keys: set<Key>): real {
    if effects == [] then 0.0 else
    var last := effects[|effects| - 1];
    Captured(effects[..|effects| - 1], keys) + if last.Payment? && last.key in keys then last.amount else 0.0
  }

  lemma {:induction false} CapturedAdds(a: seq<Effect>, b: seq<Effect>, keys: set<Key>)
    ensures Captured(a + b, keys) == Captured(a, keys) + Captured(b, keys)
  {
    if b == [] {
      assert a + b == a;
    } else {
      assert (a + b)[..|a + b| - 1] == a + b[..|b| - 1];
      CapturedAdds(a, b[..|b| - 1], keys);
    }
  }

  predicate Pays(row: ActionRow, keys: set<Key>) {
    row.req.action.ExecutePayment? && row.req.key in keys
  }

  ghost predicate NonePays(actions: seq<ActionRow>, keys: set<Key>) {
    forall i :: 0 <= i < |actions| ==> !Pays(actions[i], keys)
  }

  /** At most one of the rows is a payment under the keys, and it is within the cap. */
  ghost predicate OnePaysWithin(actions: seq<ActionRow>, keys: set<Key>, cap: real) {
    && (forall i, j :: 0 <= i < j < |actions| ==> !Pays(actions[i], keys) || !Pays(actions[j], keys))
    && (forall i :: 0 <= i < |actions| && Pays(actions[i], keys) ==> MoneyOf(actions[i].req.payload, Amount) <= cap)
  }

  lemma CapturedByOne(cfg: Config, row: ActionRow, reference: string, keys: set<Key>)
    ensures Captured(ProjectDomainEffect(cfg, row.req, reference), keys) ==
            if Pays(row, keys) && ProjectDomainEffect(cfg, row.req, reference) != []
            then MoneyOf(row.req.payload, Amount) else 0.0
  {
    var effects := ProjectDomainEffect(cfg, row.req, reference);
    if |effects| == 2 {
      assert effects == effects[..1] + effects[1..];
      CapturedAdds(effects[..1], effects[1..], keys);
    }
  }

  lemma {:induction false} CapturedWithin(cfg: Config, actions: seq<ActionRow>, effects: seq<Effect>, keys: set<Key>,
                                          cap: real)
    requires Explains(cfg, actions, effects) && OnePaysWithin(actions, keys, cap)
    ensures Captured(effects, keys) <= if cap > 0.0 then cap else 0.0
    ensures NonePays(actions, keys) ==> Captured(effects, keys) == 0.0
    decreases |actions|
  {
    if actions != [] {
      var front, row := actions[..|actions| - 1], actions[|actions| - 1];
      var mine := ProjectDomainEffect(cfg, row.req, row.reference.GetOr(""));
      if Explains(cfg, front, effects) {
        CapturedWithin(cfg, front, effects, keys, cap);
      } else {
        var before := effects[..|effects| - |mine|];
        assert effects == before + mine;
        CapturedWithin(cfg, front, before, keys, cap);
        CapturedAdds(before, mine, keys);
        CapturedByOne(cfg, row, row.reference.GetOr(""), keys);
        assert Pays(row, keys) ==> NonePays(front, keys);
      }
    }
  }

  /** The idempotency keys of the actions of a session. */
  ghost function KeysOf(actions: seq<ActionRow>, session: string): set<Key> {
    set i | 0 <= i < |actions| && actions[i].req.session == session :: actions[i].req.key
  }

  /** The total captured in a session never exceeds the cap, over any run with retries, repeated
      payment calls, lost responses and failed projections. */
  lemma PaymentBound(st: Settings, run: seq<Step>, session: string)
    requires CanRun(st, QUIET, run)
    ensures var tables := Ran(st, QUIET, run).db.tables;
            Captured(tables.effects, KeysOf(tables.actions, session)) <=
            if st.thresholds.paymentCap > 0.0 then st.thresholds.paymentCap else 0.0
  {
    ReachableWorld(st, run);
    var w := Ran(st, QUIET, run);
    var actions := w.db.tables.actions;
    var keys := KeysOf(actions, session);
    forall i | 0 <= i < |actions| && Pays(actions[i], keys)
      ensures MoneyOf(actions[i].req.payload, Amount) <= st.thresholds.paymentCap
      ensures actions[i].req.session == session
    {
      var c := CommittedIsGranted(st, w, i);
      var k := GrantIsAuthorized(st, w, c, actions[i].req);
      var j :| 0 <= j < |actions| && actions[j].req.session == session && actions[j].req.key == actions[i].req.key;
      assert i < j || j < i || i == j;
    }
    forall i, j | 0 <= i < j < |actions| ensures !Pays(actions[i], keys) || !Pays(actions[j], keys) {
      if Pays(actions[i], keys) && Pays(actions[j], keys) {
        OneRowPerSessionAndAction(st, run, i, j);
      }
    }
    CapturedWithin(st.store, actions, w.db.tables.effects, keys, st.thresholds.paymentCap);
  }

  // ---------- escalation is absorbing ----------

  /** A caller who must be handed to a human whatever happens later in the call. */
  ghost predicate MustEscalate(s: Session.State) {
    || s.clarificationAttempts >= 2
    || (s.customer.Some? && (s.customer.value.isVip || s.customer.value.fraudSuspected))
  }

  /** The calls from number `n` on have seen at least the sessions of `w0`. */
  ghost predicate SawAtLeast(w0: World, w: World, n: nat) {
    && SessionsGrown(w0, w)
    && forall c :: n <= c < |w.calls| && w.calls[c].session < |w0.sessions| ==>
         Grown(w0.sessions[w.calls[c].session], w.calls[c].seen)
  }

  lemma SawAtLeastStep(st: Settings, w0: World, w: World, n: nat, step: Step)
    requires SawAtLeast(w0, w, n) && Can(st, w, step)
    ensures SawAtLeast(w0, Do(st, w, step), n)
  {
    var w' := Do(st, w, step);
    WorldGrows(st, w, step);
    forall s | 0 <= s < |w0.sessions| ensures Grown(w0.sessions[s], w'.sessions[s]) {
      assert Grown(w0.sessions[s], w.sessions[s]) && Grown(w.sessions[s], w'.sessions[s]);
    }
    forall c | n <= c < |w'.calls| && w'.calls[c].session < |w0.sessions|
      ensures Grown(w0.sessions[w'.calls[c].session], w'.calls[c].seen)
    {
      if c < |w.calls| {
        assert w'.calls[c].seen == w.calls[c].seen && w'.calls[c].session == w.calls[c].session;
      } else {
        assert Grown(w0.sessions[step.caller], w.sessions[step.caller]);
      }
    }
  }

  lemma {:induction false} SawAtLeastAlways(st: Settings, w0: World, w: World, n: nat, run: seq<Step>)
    requires SawAtLeast(w0, w, n) && CanRun(st, w, run)
    ensures SawAtLeast(w0, Ran(st, w, run), n)
    decreases |run|
  {
    if run != [] {
      SawAtLeastStep(st, w0, w, n, run[0]);
      SawAtLeastAlways(st, w0, Do(st, w, run[0]), n, run[1..]);
    }
  }

  lemma {:induction false} RunJoins(st: Settings, w: World, a: seq<Step>, b: seq<Step>)
    requires CanRun(st, w, a) && CanRun(st, Ran(st, w, a), b)
    ensures CanRun(st, w, a + b) && Ran(st, w, a + b) == Ran(st, Ran(st, w, a), b)
    decreases |a|
  {
    if a == [] {
      assert a + b == b;
    } else {
      assert (a + b)[1..] == a[1..] + b && (a + b)[0] == a[0];
      RunJoins(st, Do(st, w, a[0]), a[1..], b);
    }
  }

  /** What the session and the tool must be for policy to authorize a call: a resolved and verified caller
      who is neither VIP nor suspected of fraud, fewer than two clarifications, the last three scored turns
      not all negative, a payment confirmed and within the cap, a deferral within the rules. */
  ghost predicate Allowed(th: Thresholds, s: Session.State, tool: Tool) {
    && s.identityVerified && s.clarificationAttempts < 2 && !Session.LastAreNegative(s.sentimentHistory, 3)
    && s.customer.Some? && !s.customer.value.isVip && !s.customer.value.fraudSuspected
    && (tool.MakePayment? ==> tool.confirmed && tool.amount <= th.paymentCap)
    && (tool.RequestDeferral? ==>
          && th.deferralMinAgeDays <= s.customer.value.accountAgeDays && 0 < th.deferralMaxPerYear
          && tool.unpaid <= th.deferralUnpaidThreshold)
  }

  /** Policy authorizes a tool call of a session exactly when it is allowed, in terms of the session's own
      history and the tool's own arguments. */
  lemma ToolIsAuthorizedExactlyWhen(th: Thresholds, s: Session.State, tool: Tool)
    requires WellKept(s)
    ensures EvaluateAction(Judged(s, tool), th).verdict.Authorized? <==> Allowed(th, s, tool)
  {
    PolicySeesFrustration(s, tool);
    AuthorizedExactlyWhen(Judged(s, tool), th);
  }

  /** The reason a caller gets for a tool call, in terms of the session's own history and the tool's own
      arguments: the first trigger, the identity step-up, or the rule of the action. */
  lemma ReasonForATool(th: Thresholds, s: Session.State, tool: Tool)
    requires WellKept(s)
    ensures EvaluateAction(Judged(s, tool), th).ruleId ==
            if s.customer.Some? && s.customer.value.fraudSuspected then "ESC_FRAUD"
            else if s.customer.Some? && s.customer.value.isVip then "ESC_VIP"
            else if Session.LastAreNegative(s.sentimentHistory, 3) then "ESC_FRUSTRATION"
            else if s.clarificationAttempts >= 2 then "ESC_CLARIFICATION"
            else if !s.identityVerified then
              (if s.identityAttempts >= 3 then "ESC_IDENTITY_FAILURE" else "IDENTITY_STEP_UP")
            else match tool
                 case MakePayment(amount, confirmed) =>
                   if !confirmed then "PAY_NO_CONFIRMATION"
                   else if amount > th.paymentCap then "PAY_ABOVE_CAP" else "PAY_OK"
                 case RequestDeferral(_, unpaid) =>
                   if s.customer.value.accountAgeDays < th.deferralMinAgeDays then "DEF_MIN_AGE"
                   else if 0 >= th.deferralMaxPerYear then "DEF_CAP"
                   else if unpaid > th.deferralUnpaidThreshold then "DEF_UNPAID_REVIEW" else "DEF_OK"
                 case UnblockSimCard => "SIM_OK"
                 case _ => "DEFAULT_ALLOW"
  {
    PolicySeesFrustration(s, tool);
    RuleIdGivenWhen(Judged(s, tool), th);
  }

  /** Only allowed calls act, in every reachable state. */
  lemma OnlyAllowedCallsAct(st: Settings, run: seq<Step>, c: nat)
    requires CanRun(st, QUIET, run) && c < |Ran(st, QUIET, run).calls| && Acts(Ran(st, QUIET, run).calls[c])
    ensures Allowed(st.thresholds, Ran(st, QUIET, run).calls[c].seen, Ran(st, QUIET, run).calls[c].tool)
  {
    ReachableWorld(st, run);
    var w := Ran(st, QUIET, run);
    assert WellKept(w.calls[c].seen) && CallOk(st, w, c);
    ToolIsAuthorizedExactlyWhen(st.thresholds, w.calls[c].seen, w.calls[c].tool);
  }

  /** No call that is made while the last three scored turns of its session are negative acts, then or
      later. */
  lemma FrustratedCallDoesNotAct(st: Settings, run: seq<Step>, c: nat)
    requires CanRun(st, QUIET, run) && c < |Ran(st, QUIET, run).calls|
    requires Session.LastAreNegative(Ran(st, QUIET, run).calls[c].seen.sentimentHistory, 3)
    ensures !Acts(Ran(st, QUIET, run).calls[c])
  {
    ReachableWorld(st, run);
    var w := Ran(st, QUIET, run);
    var call := w.calls[c];
    assert WellKept(call.seen) && CallOk(st, w, c);
    PolicySeesFrustration(call.seen, call.tool);
    AuthorizedExactlyWhen(Judged(call.seen, call.tool), st.thresholds);
  }

  lemma {:induction false} CallsStay(st: Settings, w: World, run: seq<Step>)
    requires CanRun(st, w, run)
    ensures SameCalls(w, Ran(st, w, run))
    decreases |run|
  {
    if run != [] {
      WorldGrows(st, w, run[0]);
      CallsStay(st, Do(st, w, run[0]), run[1..]);
    }
  }

  /** Frustration escalates: a tool called when the last three scored turns are negative does not act in any
      continuation. */
  lemma FrustrationEscalates(st: Settings, before: seq<Step>, s: nat, tool: Tool, later: seq<Step>)
    requires CanRun(st, QUIET, before) && s < |Ran(st, QUIET, before).sessions|
    requires Session.LastAreNegative(Ran(st, QUIET, before).sessions[s].sentimentHistory, 3)
    requires CanRun(st, Do(st, Ran(st, QUIET, before), CallTool(s, tool)), later)
    ensures var w := Ran(st, QUIET, before);
            var w' := Ran(st, Do(st, w, CallTool(s, tool)), later);
            |w.calls| < |w'.calls| && !Acts(w'.calls[|w.calls|])
  {
    var w, call := Ran(st, QUIET, before), CallTool(s, tool);
    var w1 := Do(st, w, call);
    assert ([call] + later)[1..] == later;
    assert CanRun(st, w, [call] + later) && Ran(st, w, [call] + later) == Ran(st, w1, later);
    RunJoins(st, QUIET, before, [call] + later);
    CallsStay(st, w1, later);
    FrustratedCallDoesNotAct(st, before + ([call] + later), |w.calls|);
  }

  ghost predicate Acts(call: Call) {
    call.stage.Executing? || (call.stage.Over? && call.stage.outcome.Executed?)
  }

  /** Once a session must be escalated, no tool call started from then on reaches execution, in any
      continuation. */
  lemma EscalationIsAbsorbing(st: Settings, before: seq<Step>, later: seq<Step>, s: nat, c: nat)
    requires CanRun(st, QUIET, before) && CanRun(st, Ran(st, QUIET, before), later)
    requires s < |Ran(st, QUIET, before).sessions| && MustEscalate(Ran(st, QUIET, before).sessions[s])
    requires |Ran(st, QUIET, before).calls| <= c < |Ran(st, Ran(st, QUIET, before), later).calls|
    requires Ran(st, Ran(st, QUIET, before), later).calls[c].session == s
    ensures !Acts(Ran(st, Ran(st, QUIET, before), later).calls[c])
  {
    var w0 := Ran(st, QUIET, before);
    var w := Ran(st, w0, later);
    RunJoins(st, QUIET, before, later);
    ReachableWorld(st, before + later);
    SawAtLeastAlways(st, w0, w0, |w0.calls|, later);
    var call := w.calls[c];
    assert Grown(w0.sessions[s], call.seen);
    AuthorizedExactlyWhen(Judged(call.seen, call.tool), st.thresholds);
    assert CallOk(st, w, c);
  }
}
