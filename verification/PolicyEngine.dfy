/** The deterministic policy engine: the mandatory-escalation chain, the identity backstop and the
    action rules, with the decision scorer that is asked before it. */
module PolicyEngine {
  import opened Domain

  datatype PolicyContext = PolicyContext(
    session: string,
    customer: Option<string>,
    subscription: Option<string>,
    action: Action,
    isVip: bool,
    fraudSuspected: bool,
    frustration: bool,
    identityVerified: bool,
    clarificationAttempts: int,
    identityAttempts: int,
    amount: Option<real>,
    requestedDays: Option<int>,
    accountAgeDays: int,
    deferralsThisYear: int,
    unpaidAmount: real,
    paymentConfirmed: bool)

  datatype Thresholds = Thresholds(
    paymentCap: real,
    deferralMinAgeDays: int,
    deferralMaxPerYear: int,
    deferralUnpaidThreshold: real)

  datatype VerdictResult = VerdictResult(verdict: Verdict, ruleId: string)

  const IDENTITY_MAX_ATTEMPTS := 3
  const CLARIFICATION_MAX_ATTEMPTS := 2

  /** The catalogue of sensitive actions, which is also the catalogue of the decision scorer. */
  predicate Sensitive(action: Action) {
    !action.Uncatalogued?
  }

  predicate IsSimAction(action: Action) {
    action.UnblockSim? || action.ReplaceSim? || action.ReactivateSim?
  }

  function CheckMandatory(ctx: PolicyContext): Option<VerdictResult> {
    if ctx.fraudSuspected then Some(VerdictResult(Escalate, "ESC_FRAUD"))
    else if ctx.isVip then Some(VerdictResult(Escalate, "ESC_VIP"))
    else if ctx.frustration then Some(VerdictResult(Escalate, "ESC_FRUSTRATION"))
    else if ctx.clarificationAttempts >= CLARIFICATION_MAX_ATTEMPTS then
      Some(VerdictResult(Escalate, "ESC_CLARIFICATION"))
    else if ctx.identityAttempts >= IDENTITY_MAX_ATTEMPTS && !ctx.identityVerified then
      Some(VerdictResult(Escalate, "ESC_IDENTITY_FAILURE"))
    else None
  }

  function CheckPayment(ctx: PolicyContext, th: Thresholds): Option<VerdictResult> {
    if !ctx.action.ExecutePayment? then None
    else if !ctx.paymentConfirmed then Some(VerdictResult(Refused, "PAY_NO_CONFIRMATION"))
    else if ctx.amount.Some? && ctx.amount.value > th.paymentCap then Some(VerdictResult(Escalate, "PAY_ABOVE_CAP"))
    else Some(VerdictResult(Authorized, "PAY_OK"))
  }

  function CheckDeferral(ctx: PolicyContext, th: Thresholds): Option<VerdictResult> {
    if !ctx.action.PaymentDeferral? then None
    else if ctx.accountAgeDays < th.deferralMinAgeDays then Some(VerdictResult(Refused, "DEF_MIN_AGE"))
    else if ctx.deferralsThisYear >= th.deferralMaxPerYear then Some(VerdictResult(Refused, "DEF_CAP"))
    else if ctx.unpaidAmount > th.deferralUnpaidThreshold then Some(VerdictResult(Escalate, "DEF_UNPAID_REVIEW"))
    else Some(VerdictResult(Authorized, "DEF_OK"))
  }

  function CheckSim(ctx: PolicyContext, th: Thresholds): Option<VerdictResult> {
    if !IsSimAction(ctx.action) then None
    else if !ctx.identityVerified then Some(VerdictResult(Escalate, "SIM_IDENTITY_REQUIRED"))
    else Some(VerdictResult(Authorized, "SIM_OK"))
  }

  type Rule = (PolicyContext, Thresholds) -> Option<VerdictResult>

  function FirstObjection(rules: seq<Rule>, ctx: PolicyContext, th: Thresholds): Option<VerdictResult> {
    if rules == [] then None
    else if rules[0](ctx, th).Some? then rules[0](ctx, th)
    else FirstObjection(rules[1..], ctx, th)
  }

  function ActionRules(): seq<Rule> {
    [CheckPayment, CheckDeferral, CheckSim]
  }

  function EvaluateAction(ctx: PolicyContext, th: Thresholds): VerdictResult {
    var mandatory := CheckMandatory(ctx);
    if mandatory.Some? then mandatory.value
    else if Sensitive(ctx.action) && !ctx.identityVerified then VerdictResult(Escalate, "IDENTITY_STEP_UP")
    else FirstObjection(ActionRules(), ctx, th).GetOr(VerdictResult(Authorized, "DEFAULT_ALLOW"))
  }

  // ---------- what the verdict means ----------

  /** The escalation triggers. */
  ghost predicate Mandatory(ctx: PolicyContext) {
    || ctx.fraudSuspected
    || ctx.isVip
    || ctx.frustration
    || ctx.clarificationAttempts >= 2
    || (ctx.identityAttempts >= 3 && !ctx.identityVerified)
  }

  ghost predicate WithinBusinessRules(ctx: PolicyContext, th: Thresholds) {
    && (ctx.action.ExecutePayment? ==>
          ctx.paymentConfirmed && (ctx.amount.Some? ==> ctx.amount.value <= th.paymentCap))
    && (ctx.action.PaymentDeferral? ==>
          && th.deferralMinAgeDays <= ctx.accountAgeDays
          && ctx.deferralsThisYear < th.deferralMaxPerYear
          && ctx.unpaidAmount <= th.deferralUnpaidThreshold)
  }

  lemma FirstOfThree(a: Rule, b: Rule, c: Rule, ctx: PolicyContext, th: Thresholds)
    ensures FirstObjection([a, b, c], ctx, th) ==
            if a(ctx, th).Some? then a(ctx, th) else if b(ctx, th).Some? then b(ctx, th) else c(ctx, th)
  {
    assert [a, b, c][1..] == [b, c] && [b, c][1..] == [c] && [c][1..] == [];
    assert FirstObjection([c], ctx, th) == c(ctx, th);
    assert FirstObjection([b, c], ctx, th) == if b(ctx, th).Some? then b(ctx, th) else c(ctx, th);
  }

  /** AUTHORIZED in one condition, whatever order the rules are written in. */
  lemma AuthorizedExactlyWhen(ctx: PolicyContext, th: Thresholds)
    ensures EvaluateAction(ctx, th).verdict.Authorized? <==>
            && !Mandatory(ctx)
            && (Sensitive(ctx.action) ==> ctx.identityVerified)
            && WithinBusinessRules(ctx, th)
  {
    FirstOfThree(CheckPayment, CheckDeferral, CheckSim, ctx, th);
  }

  /** REFUSED only ever comes from an unconfirmed payment, a young account or the yearly cap. */
  lemma RefusedExactlyWhen(ctx: PolicyContext, th: Thresholds)
    ensures EvaluateAction(ctx, th).verdict.Refused? <==>
            && !Mandatory(ctx) && ctx.identityVerified
            && (|| (ctx.action.ExecutePayment? && !ctx.paymentConfirmed)
                || (ctx.action.PaymentDeferral?
                    && (ctx.accountAgeDays < th.deferralMinAgeDays
                        || ctx.deferralsThisYear >= th.deferralMaxPerYear)))
  {
    FirstOfThree(CheckPayment, CheckDeferral, CheckSim, ctx, th);
  }

  /** Which rule id a verdict carries, for every context: the first trigger in the order fraud, VIP,
      frustration, clarification, identity; then the identity step-up; then the rule of the action. */
  lemma RuleIdGivenWhen(ctx: PolicyContext, th: Thresholds)
    ensures var id := EvaluateAction(ctx, th).ruleId;
            var earlier := ctx.fraudSuspected || ctx.isVip || ctx.frustration || ctx.clarificationAttempts >= 2;
            && (ctx.fraudSuspected ==> id == "ESC_FRAUD")
            && (!ctx.fraudSuspected && ctx.isVip ==> id == "ESC_VIP")
            && (!ctx.fraudSuspected && !ctx.isVip && ctx.frustration ==> id == "ESC_FRUSTRATION")
            && (!ctx.fraudSuspected && !ctx.isVip && !ctx.frustration && ctx.clarificationAttempts >= 2 ==>
                  id == "ESC_CLARIFICATION")
            && (Mandatory(ctx) && !earlier ==> id == "ESC_IDENTITY_FAILURE")
            && (!Mandatory(ctx) && Sensitive(ctx.action) && !ctx.identityVerified ==> id == "IDENTITY_STEP_UP")
            && (!Mandatory(ctx) && ctx.identityVerified && ctx.action.ExecutePayment? ==>
                  id == if !ctx.paymentConfirmed then "PAY_NO_CONFIRMATION"
                        else if ctx.amount.Some? && ctx.amount.value > th.paymentCap then "PAY_ABOVE_CAP" else "PAY_OK")
            && (!Mandatory(ctx) && ctx.identityVerified && ctx.action.PaymentDeferral? ==>
                  id == if ctx.accountAgeDays < th.deferralMinAgeDays then "DEF_MIN_AGE"
                        else if ctx.deferralsThisYear >= th.deferralMaxPerYear then "DEF_CAP"
                        else if ctx.unpaidAmount > th.deferralUnpaidThreshold then "DEF_UNPAID_REVIEW" else "DEF_OK")
            && (!Mandatory(ctx) && ctx.identityVerified && ctx.action in {UnblockSim, ReplaceSim, ReactivateSim} ==>
                  id == "SIM_OK")
            && (!Mandatory(ctx) && (ctx.action.Uncatalogued?
                                    || (ctx.identityVerified && ctx.action in {TopUp, ChangePlan, ActivateRoaming})) ==>
                  id == "DEFAULT_ALLOW")
  {
    FirstOfThree(CheckPayment, CheckDeferral, CheckSim, ctx, th);
  }

  /** The action rules guard disjoint actions, so any order of them gives the same first answer. */
  lemma RuleOrderIsIrrelevant(i: nat, j: nat, k: nat, ctx: PolicyContext, th: Thresholds)
    requires {i, j, k} == {0, 1, 2}
    ensures FirstObjection([ActionRules()[i], ActionRules()[j], ActionRules()[k]], ctx, th)
         == FirstObjection(ActionRules(), ctx, th)
  {
    assert 0 in {i, j, k} && 1 in {i, j, k} && 2 in {i, j, k} && i in {0, 1, 2} && j in {0, 1, 2} && k in {0, 1, 2};
    FirstOfThree(CheckPayment, CheckDeferral, CheckSim, ctx, th);
    FirstOfThree(ActionRules()[i], ActionRules()[j], ActionRules()[k], ctx, th);
  }

  /** The identity backstop shadows the identity check of the SIM rule, which never answers. */
  lemma SimIdentityRuleIsShadowed(ctx: PolicyContext, th: Thresholds)
    ensures EvaluateAction(ctx, th).ruleId != "SIM_IDENTITY_REQUIRED"
  {
    FirstOfThree(CheckPayment, CheckDeferral, CheckSim, ctx, th);
    assert |"SIM_IDENTITY_REQUIRED"| == 21;
    assert forall v | v in {"ESC_FRAUD", "ESC_VIP", "ESC_FRUSTRATION", "ESC_CLARIFICATION", "ESC_IDENTITY_FAILURE",
                            "IDENTITY_STEP_UP", "PAY_NO_CONFIRMATION", "PAY_ABOVE_CAP", "PAY_OK", "DEF_MIN_AGE",
                            "DEF_CAP", "DEF_UNPAID_REVIEW", "DEF_OK", "SIM_OK", "DEFAULT_ALLOW"} :: |v| != 21;
  }

  // ---------- the decision scorer ----------

  /** The confidence of the scorer; an unreachable decision service answers 0.0. */
  function Recommend(action: Action, identityVerified: bool): real {
    if !Sensitive(action) then 0.2 else if identityVerified then 0.9 else 0.6
  }

  /** Which proposals the façade lets on to policy at a threshold: at the configured 0.5, exactly the
      catalogued actions, verified or not. */
  lemma DecisionGate(action: Action, identityVerified: bool, threshold: real)
    ensures Recommend(action, identityVerified) >= threshold <==>
            || threshold <= 0.2
            || (Sensitive(action) && threshold <= 0.6)
            || (Sensitive(action) && identityVerified && threshold <= 0.9)
  {
  }
}
