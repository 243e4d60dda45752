/** The one path from a sensitive tool to an action: assemble the context, ask Decision, ask Policy,
    execute. What policy judges, and the façade as a method over the answers of the services. */
module GuardedAction {
  import opened Domain
  import opened PolicyEngine
  import opened Session

  const FRUSTRATION_STREAK := 3

  function OptionalText(t: Option<string>): Value {
    if t.Some? then Text(t.value) else Null
  }

  const SESSION_FIELDS: set<Field> := {
    SessionId, CustomerId, SubscriptionId, ActionType, IsVip, FraudSuspected, Frustration, IdentityVerified,
    ClarificationAttempts, IdentityAttempts, AccountAgeDays
  }

  function SessionField(s: State, action: Action, f: Field): Value {
    var known := s.customer.Some?;
    match f
    case SessionId => Text(s.id)
    case CustomerId => if known then Text(s.customer.value.id) else Null
    case SubscriptionId => if known then OptionalText(s.customer.value.subscription) else Null
    case ActionType => Name(action)
    case IsVip => Flag(known && s.customer.value.isVip)
    case FraudSuspected => Flag(known && s.customer.value.fraudSuspected)
    case Frustration => Flag(s.consecutiveNegativeTurns >= FRUSTRATION_STREAK)
    case IdentityVerified => Flag(s.identityVerified)
    case ClarificationAttempts => Count(s.clarificationAttempts)
    case IdentityAttempts => Count(s.identityAttempts)
    case AccountAgeDays => Count(if known then s.customer.value.accountAgeDays else 0)
    case _ => Null
  }

  /** The session part of the context; the payload is laid over it and wins. */
  function SessionContext(s: State, action: Action): Dict {
    map f | f in SESSION_FIELDS :: SessionField(s, action, f)
  }

  function BuildContext(s: State, action: Action, payload: Dict): Dict {
    SessionContext(s, action) + payload
  }

  // ---------- what the policy service reads from the dictionary ----------

  function FlagAt(d: Dict, f: Field): Option<bool> {
    if f !in d then Some(false) else if d[f].Flag? then Some(d[f].flag) else None
  }

  function CountAt(d: Dict, f: Field): Option<int> {
    if f !in d then Some(0) else if d[f].Count? then Some(d[f].count) else None
  }

  function NumberAt(d: Dict, f: Field): Option<Option<real>> {
    if f !in d || d[f].Null? then Some(None)
    else if d[f].Money? then Some(Some(d[f].money))
    else if d[f].Count? then Some(Some(d[f].count as real))
    else None
  }

  /** A number that may be left out but not be null. */
  function PlainNumberAt(d: Dict, f: Field): Option<real> {
    var n :- NumberAt(d, f);
    if f in d && n.None? then None else Some(n.GetOr(0.0))
  }

  function SessionIdAt(d: Dict): Option<string> {
    if SessionId !in d then Some("unknown") else if d[SessionId].Text? then Some(d[SessionId].text) else None
  }

  function TextAt(d: Dict, f: Field): Option<Option<string>> {
    if f !in d || d[f].Null? then Some(None) else if d[f].Text? then Some(Some(d[f].text)) else None
  }

  function ActionAt(d: Dict): Option<Action> {
    if ActionType in d && d[ActionType].Name? then Some(d[ActionType].action) else None
  }

  function DaysAt(d: Dict): Option<Option<int>> {
    if RequestedDays !in d || d[RequestedDays].Null? then Some(None)
    else if d[RequestedDays].Count? then Some(Some(d[RequestedDays].count))
    else None
  }

  /** A field of the wrong type makes the request invalid; unread keys are ignored. */
  function Parse(d: Dict): Option<PolicyContext> {
    var session :- SessionIdAt(d);
    var customer :- TextAt(d, CustomerId);
    var subscription :- TextAt(d, SubscriptionId);
    var action :- ActionAt(d);
    var isVip :- FlagAt(d, IsVip);
    var fraudSuspected :- FlagAt(d, FraudSuspected);
    var frustration :- FlagAt(d, Frustration);
    var identityVerified :- FlagAt(d, IdentityVerified);
    var clarificationAttempts :- CountAt(d, ClarificationAttempts);
    var identityAttempts :- CountAt(d, IdentityAttempts);
    var amount :- NumberAt(d, Amount);
    var requestedDays :- DaysAt(d);
    var accountAgeDays :- CountAt(d, AccountAgeDays);
    var deferralsThisYear :- CountAt(d, DeferralsThisYear);
    var unpaidAmount :- PlainNumberAt(d, UnpaidAmount);
    var paymentConfirmed :- FlagAt(d, PaymentConfirmed);
    Some(PolicyContext(
      session, customer, subscription, action, isVip, fraudSuspected, frustration, identityVerified,
      clarificationAttempts, identityAttempts, amount, requestedDays, accountAgeDays, deferralsThisYear,
      unpaidAmount, paymentConfirmed))
  }

  /** What the policy service has of a field of the session part, as the value it was sent. */
  function AsRead(ctx: PolicyContext, f: Field): Value {
    match f
    case SessionId => Text(ctx.session)
    case CustomerId => OptionalText(ctx.customer)
    case SubscriptionId => OptionalText(ctx.subscription)
    case ActionType => Name(ctx.action)
    case IsVip => Flag(ctx.isVip)
    case FraudSuspected => Flag(ctx.fraudSuspected)
    case Frustration => Flag(ctx.frustration)
    case IdentityVerified => Flag(ctx.identityVerified)
    case ClarificationAttempts => Count(ctx.clarificationAttempts)
    case IdentityAttempts => Count(ctx.identityAttempts)
    case AccountAgeDays => Count(ctx.accountAgeDays)
    case _ => Null
  }

  lemma ParseReads(d: Dict)
    requires Parse(d).Some?
    ensures var ctx := Parse(d).value;
            && SessionIdAt(d) == Some(ctx.session) && TextAt(d, CustomerId) == Some(ctx.customer)
            && TextAt(d, SubscriptionId) == Some(ctx.subscription) && ActionAt(d) == Some(ctx.action)
            && FlagAt(d, IsVip) == Some(ctx.isVip) && FlagAt(d, FraudSuspected) == Some(ctx.fraudSuspected)
            && FlagAt(d, Frustration) == Some(ctx.frustration)
            && FlagAt(d, IdentityVerified) == Some(ctx.identityVerified)
            && CountAt(d, ClarificationAttempts) == Some(ctx.clarificationAttempts)
            && CountAt(d, IdentityAttempts) == Some(ctx.identityAttempts)
            && CountAt(d, AccountAgeDays) == Some(ctx.accountAgeDays)
  {
  }

  lemma FieldIsReadAsSent(d: Dict, f: Field)
    requires Parse(d).Some? && f in SESSION_FIELDS && f in d
    ensures AsRead(Parse(d).value, f) == d[f]
  {
    ParseReads(d);
  }

  /** The payload is laid over the context: a field of the session is judged as it is exactly when the
      payload does not override it. Of the action this says when the judged action is the executed one. */
  lemma JudgedFieldIsSessionField(s: State, action: Action, payload: Dict, f: Field)
    requires Parse(BuildContext(s, action, payload)).Some? && f in SESSION_FIELDS
    ensures AsRead(Parse(BuildContext(s, action, payload)).value, f) == SessionField(s, action, f) <==>
            (f in payload ==> payload[f] == SessionField(s, action, f))
  {
    FieldIsReadAsSent(BuildContext(s, action, payload), f);
  }

  // ---------- the tools ----------

  datatype Tool =
    | MakePayment(amount: real, confirmed: bool)
    | RequestDeferral(requestedDays: int, unpaid: real)
    | UnblockSimCard
    | ChangePlanTo(code: string)
    | TopUpBy(topUp: real)
    | ToggleRoaming(enable: bool)

  function ActionOf(tool: Tool): Action {
    match tool
    case MakePayment(_, _) => ExecutePayment
    case RequestDeferral(_, _) => PaymentDeferral
    case UnblockSimCard => UnblockSim
    case ChangePlanTo(_) => ChangePlan
    case TopUpBy(_) => TopUp
    case ToggleRoaming(_) => ActivateRoaming
  }

  function PayloadOf(tool: Tool): Dict {
    match tool
    case MakePayment(amount, confirmed) => map[Amount := Money(amount), PaymentConfirmed := Flag(confirmed)]
    case RequestDeferral(days, unpaid) =>
      map[RequestedDays := Count(days), UnpaidAmount := Money(unpaid), DeferralsThisYear := Count(0)]
    case UnblockSimCard => map[]
    case ChangePlanTo(code) => map[Unread("plan_code") := Text(code)]
    case TopUpBy(amount) => map[Amount := Money(amount)]
    case ToggleRoaming(enable) => map[Unread("enable") := Flag(enable)]
  }

  /** What policy is asked about a tool call. */
  function Judged(s: State, tool: Tool): PolicyContext {
    var c := s.customer;
    PolicyContext(
      s.id,
      if c.Some? then Some(c.value.id) else None,
      if c.Some? then c.value.subscription else None,
      ActionOf(tool),
      c.Some? && c.value.isVip,
      c.Some? && c.value.fraudSuspected,
      s.consecutiveNegativeTurns >= FRUSTRATION_STREAK,
      s.identityVerified,
      s.clarificationAttempts,
      s.identityAttempts,
      if tool.MakePayment? then Some(tool.amount) else if tool.TopUpBy? then Some(tool.topUp) else None,
      if tool.RequestDeferral? then Some(tool.requestedDays) else None,
      if c.Some? then c.value.accountAgeDays else 0,
      0,
      if tool.RequestDeferral? then tool.unpaid else 0.0,
      tool.MakePayment? && tool.confirmed)
  }

  /** Policy sees frustration in exactly the tool calls made while the last three scored turns are negative. */
  lemma PolicySeesFrustration(s: State, tool: Tool)
    requires CountsStreak(s)
    ensures Judged(s, tool).frustration <==> LastAreNegative(s.sentimentHistory, 3)
  {
    StreakAtLeast(s.sentimentHistory, s.consecutiveNegativeTurns, 3);
  }

  /** The same after any events of a session. */
  lemma FrustrationIsThreeNegativeTurns(id: string, customer: Option<Customer>, events: seq<Event>, tool: Tool)
    ensures var s := Run(NewSession(id, customer), events);
            Judged(s, tool).frustration <==> LastAreNegative(s.sentimentHistory, 3)
  {
    CounterIsStreak(id, customer, events);
    PolicySeesFrustration(Run(NewSession(id, customer), events), tool);
  }

  lemma SessionFieldsSurvive(s: State, tool: Tool, f: Field)
    requires f in SESSION_FIELDS
    ensures var d := BuildContext(s, ActionOf(tool), PayloadOf(tool));
            f in d && d[f] == SessionField(s, ActionOf(tool), f)
  {
    assert f !in PayloadOf(tool);
  }

  lemma PayloadFieldsArrive(s: State, tool: Tool, f: Field)
    requires f !in SESSION_FIELDS
    ensures var d, payload := BuildContext(s, ActionOf(tool), PayloadOf(tool)), PayloadOf(tool);
            (f in d <==> f in payload) && (f in payload ==> d[f] == payload[f])
  {
  }

  lemma IdentityReads(s: State, tool: Tool)
    ensures var d, j := BuildContext(s, ActionOf(tool), PayloadOf(tool)), Judged(s, tool);
            && SessionIdAt(d) == Some(j.session) && TextAt(d, CustomerId) == Some(j.customer)
            && TextAt(d, SubscriptionId) == Some(j.subscription) && ActionAt(d) == Some(j.action)
            && FlagAt(d, IdentityVerified) == Some(j.identityVerified)
            && CountAt(d, IdentityAttempts) == Some(j.identityAttempts)
  {
    SessionFieldsSurvive(s, tool, SessionId);
    SessionFieldsSurvive(s, tool, CustomerId);
    SessionFieldsSurvive(s, tool, SubscriptionId);
    SessionFieldsSurvive(s, tool, ActionType);
    SessionFieldsSurvive(s, tool, IdentityVerified);
    SessionFieldsSurvive(s, tool, IdentityAttempts);
  }

  lemma TriggerReads(s: State, tool: Tool)
    ensures var d, j := BuildContext(s, ActionOf(tool), PayloadOf(tool)), Judged(s, tool);
            && FlagAt(d, IsVip) == Some(j.isVip) && FlagAt(d, FraudSuspected) == Some(j.fraudSuspected)
            && FlagAt(d, Frustration) == Some(j.frustration)
            && CountAt(d, ClarificationAttempts) == Some(j.clarificationAttempts)
            && CountAt(d, AccountAgeDays) == Some(j.accountAgeDays)
  {
    SessionFieldsSurvive(s, tool, IsVip);
    SessionFieldsSurvive(s, tool, FraudSuspected);
    SessionFieldsSurvive(s, tool, Frustration);
    SessionFieldsSurvive(s, tool, ClarificationAttempts);
    SessionFieldsSurvive(s, tool, AccountAgeDays);
  }

  lemma AmountReads(s: State, tool: Tool)
    ensures var d, j := BuildContext(s, ActionOf(tool), PayloadOf(tool)), Judged(s, tool);
            NumberAt(d, Amount) == Some(j.amount) && PlainNumberAt(d, UnpaidAmount) == Some(j.unpaidAmount)
  {
    PayloadFieldsArrive(s, tool, Amount);
    PayloadFieldsArrive(s, tool, UnpaidAmount);
  }

  lemma PayloadReads(s: State, tool: Tool)
    ensures var d, j := BuildContext(s, ActionOf(tool), PayloadOf(tool)), Judged(s, tool);
            && DaysAt(d) == Some(j.requestedDays) && CountAt(d, DeferralsThisYear) == Some(j.deferralsThisYear)
            && FlagAt(d, PaymentConfirmed) == Some(j.paymentConfirmed)
  {
    PayloadFieldsArrive(s, tool, RequestedDays);
    PayloadFieldsArrive(s, tool, DeferralsThisYear);
    PayloadFieldsArrive(s, tool, PaymentConfirmed);
  }

  /** No tool's payload overrides the session: policy reads the state of the session as it is. */
  lemma ToolContextIsFaithful(s: State, tool: Tool)
    ensures Parse(BuildContext(s, ActionOf(tool), PayloadOf(tool))) == Some(Judged(s, tool))
  {
    IdentityReads(s, tool);
    TriggerReads(s, tool);
    AmountReads(s, tool);
    PayloadReads(s, tool);
  }

  lemma OverriddenReads(s: State, flag: bool)
    ensures var d, j := BuildContext(s, UnblockSim, map[IdentityVerified := Flag(flag)]), Judged(s, UnblockSimCard);
            && SessionIdAt(d) == Some(j.session) && TextAt(d, CustomerId) == Some(j.customer)
            && TextAt(d, SubscriptionId) == Some(j.subscription) && ActionAt(d) == Some(j.action)
            && FlagAt(d, IsVip) == Some(j.isVip) && FlagAt(d, FraudSuspected) == Some(j.fraudSuspected)
            && FlagAt(d, Frustration) == Some(j.frustration) && FlagAt(d, IdentityVerified) == Some(flag)
            && CountAt(d, ClarificationAttempts) == Some(j.clarificationAttempts)
            && CountAt(d, IdentityAttempts) == Some(j.identityAttempts)
            && CountAt(d, AccountAgeDays) == Some(j.accountAgeDays)
  {
    IdentityReads(s, UnblockSimCard);
    TriggerReads(s, UnblockSimCard);
    var d0, d := BuildContext(s, UnblockSim, map[]), BuildContext(s, UnblockSim, map[IdentityVerified := Flag(flag)]);
    assert d == d0[IdentityVerified := Flag(flag)];
  }

  lemma OverriddenPayloadReads(s: State, flag: bool)
    ensures var d := BuildContext(s, UnblockSim, map[IdentityVerified := Flag(flag)]);
            && NumberAt(d, Amount) == Some(None) && DaysAt(d) == Some(None) && CountAt(d, DeferralsThisYear) == Some(0)
            && PlainNumberAt(d, UnpaidAmount) == Some(0.0) && FlagAt(d, PaymentConfirmed) == Some(false)
  {
    var d := BuildContext(s, UnblockSim, map[IdentityVerified := Flag(flag)]);
    assert forall f :: f in d ==> f in SESSION_FIELDS;
  }

  /** A payload with an identity flag of its own is judged by that flag, whatever the session says. */
  lemma OverrideExample(s: State)
    ensures var payload := map[IdentityVerified := Flag(!s.identityVerified)];
            var judged := Parse(BuildContext(s, UnblockSim, payload));
            judged.Some? && judged.value.identityVerified != s.identityVerified
  {
    OverriddenReads(s, !s.identityVerified);
    OverriddenPayloadReads(s, !s.identityVerified);
  }

  // ---------- the façade ----------

  datatype Outcome =
    | Executed(action: Action, reference: string, replay: bool)
    | RefusedBy(ruleId: string)
    | EscalatedBy(ruleId: string)
    | Failed

  /** The answer of the policy service to a request that reached it. */
  datatype PolicyAnswer = PolicyAnswer(verdict: Verdict, ruleId: string, verdictId: Option<Uuid>)

  /** The clients' fallbacks: an unreachable decision service gives no confidence, an unreachable
      policy service escalates. */
  function ConfidenceOf(decision: Option<real>): real {
    decision.GetOr(0.0)
  }

  function PolicyOf(policy: Option<PolicyAnswer>): PolicyAnswer {
    policy.GetOr(PolicyAnswer(Escalate, "POLICY_UNAVAILABLE", None))
  }

  /** The façade lets an action through to execution. */
  ghost predicate Passes(decision: Option<real>, threshold: real, policy: Option<PolicyAnswer>) {
    && ConfidenceOf(decision) >= threshold
    && policy.Some? && policy.value.verdict.Authorized?
    && policy.value.verdictId.Some? && policy.value.verdictId.value != ""
  }

  /** What the façade makes of the first two answers: it stops with an outcome, or goes on to execution
      against a verdict. */
  datatype Ruling = Stop(outcome: Outcome) | Go(verdictId: Uuid)

  function RulingOn(decision: Option<real>, threshold: real, policy: Option<PolicyAnswer>): (r: Ruling)
    ensures r.Go? <==> Passes(decision, threshold, policy)
  {
    var verdict := PolicyOf(policy);
    if ConfidenceOf(decision) < threshold then Stop(EscalatedBy("DECISION_LOW_CONFIDENCE"))
    else if verdict.verdict.Refused? then Stop(RefusedBy(verdict.ruleId))
    else if verdict.verdict.Escalate? then Stop(EscalatedBy(verdict.ruleId))
    else if verdict.verdictId.None? || verdict.verdictId.value == "" then Stop(EscalatedBy("POLICY_NO_VERDICT_ID"))
    else Go(verdict.verdictId.value)
  }

  /** The execution client's outcome; None is an outage or a lost response. */
  function Report(execution: Option<Response>): Outcome {
    if execution.Some? then Executed(execution.value.action, execution.value.reference, execution.value.replay)
    else Failed
  }

  function SessionOf(context: Dict): string {
    if SessionId in context && context[SessionId].Text? then context[SessionId].text else ""
  }

  function CustomerOf(context: Dict): Option<string> {
    if CustomerId in context && context[CustomerId].Text? then Some(context[CustomerId].text) else None
  }

  function SubscriptionOf(context: Dict): Option<string> {
    if SubscriptionId in context && context[SubscriptionId].Text? then Some(context[SubscriptionId].text) else None
  }

  function RequestFor(context: Dict, action: Action, payload: Dict, key: Key, verdictId: Uuid): Request {
    Request(key, action, SessionOf(context), verdictId, CustomerOf(context), SubscriptionOf(context), payload)
  }

  /** execute_guarded_action over the answers of the three services; None is an outage or a lost
      response. `sent` is the request that leaves for the execution service. */
  method ExecuteGuardedAction(user: SessionUserData, action: Action, payload: Dict, threshold: real,
                              decision: Option<real>, policy: Option<PolicyAnswer>, execution: Option<Response>,
                              newKey: Key)
    returns (outcome: Outcome, sent: Option<Request>)
    modifies user
    ensures sent.Some? <==> Passes(decision, threshold, policy)
    ensures user.Read() == if sent.Some? then Step(old(user.Read()), Keyed(action, newKey)) else old(user.Read())
    ensures sent.Some? ==>
              && action in user.keys
              && sent.value == RequestFor(BuildContext(old(user.Read()), action, payload), action, payload,
                                          user.keys[action], policy.value.verdictId.value)
    ensures outcome == match RulingOn(decision, threshold, policy) case Stop(o) => o case Go(_) => Report(execution)
    ensures outcome.Executed? <==> sent.Some? && execution.Some?
    ensures outcome.Failed? <==> sent.Some? && execution.None?
    ensures policy.None? || (decision.None? && threshold > 0.0) ==> outcome.EscalatedBy? && sent.None?
    ensures outcome.RefusedBy? <==> ConfidenceOf(decision) >= threshold && PolicyOf(policy).verdict.Refused?
  {
    var context := BuildContext(user.Read(), action, payload);
    sent := None;
    if ConfidenceOf(decision) < threshold {
      return EscalatedBy("DECISION_LOW_CONFIDENCE"), None;
    }
    var verdict := PolicyOf(policy);
    if verdict.verdict.Refused? {
      return RefusedBy(verdict.ruleId), None;
    }
    if verdict.verdict.Escalate? {
      return EscalatedBy(verdict.ruleId), None;
    }
    if verdict.verdictId.None? || verdict.verdictId.value == "" {
      return EscalatedBy("POLICY_NO_VERDICT_ID"), None;
    }
    var key := user.NewIdempotencyKey(action, newKey);
    sent := Some(RequestFor(context, action, payload, key, verdict.verdictId.value));
    outcome := Report(execution);
  }
}
