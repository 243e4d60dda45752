/** Sessions, tool calls and the transactional store together: every interleaving of callers, service
    outages, lost responses, retries and transactions. A client request that leaves the worker opens
    a transaction that goes on whether or not its response arrives. */
module Platform {
  import opened Domain
  import opened PolicyEngine
  import opened Store
  import opened GuardedAction
  import Session

  datatype Settings = Settings(store: Config, thresholds: Thresholds, confidence: real)

  datatype CallStage =
    | Deciding
    | Judging(judge: nat)
    | Executing(execution: nat)
    | Over(outcome: Outcome)

  /** `seen` is the session state from which the context was assembled. */
  datatype Call = Call(session: nat, seen: Session.State, tool: Tool, stage: CallStage)

  datatype World = World(db: Db, sessions: seq<Session.State>, calls: seq<Call>)

  const QUIET := World(INIT, [], [])

  datatype Step =
    | OpenSession(id: string, customer: Option<Session.Customer>)
    | ChangeSession(s: nat, change: Session.Event)
    | CallTool(caller: nat, tool: Tool)
    | Decide(c: nat, answered: bool, verdictId: Uuid)
    | ReceiveVerdict(c: nat, newKey: Key)
    | LoseVerdict(c: nat)
    | ReceiveResult(c: nat, answer: nat)
    | LoseResult(c: nat)
    | Service(e: Event)
    | Background(job: Job)

  function ContextOf(call: Call): Dict {
    BuildContext(call.seen, ActionOf(call.tool), PayloadOf(call.tool))
  }

  /** The row the policy service persists for a judged context. */
  function VerdictRowFor(th: Thresholds, ctx: PolicyContext, id: Uuid): VerdictRow {
    var result := EvaluateAction(ctx, th);
    VerdictRow(id, ctx.session, ctx.customer, ctx.action, false, result.verdict, result.ruleId, Some(ctx))
  }

  /** An idempotency key is the digest of a new UUID. */
  predicate FreshKey(w: World, key: Key) {
    forall s, a :: 0 <= s < |w.sessions| && a in w.sessions[s].keys ==> w.sessions[s].keys[a] != key
  }

  predicate BackgroundJob(job: Job) {
    job.Consent? || job.Purge? || (job.Judge? && job.verdictRow.outbound)
  }

  predicate Can(st: Settings, w: World, step: Step) {
    match step
    case OpenSession(id, _) => forall s :: 0 <= s < |w.sessions| ==> w.sessions[s].id != id
    case ChangeSession(s, change) => s < |w.sessions| && !change.Keyed?
    case CallTool(s, _) => s < |w.sessions|
    case Decide(c, _, id) =>
      c < |w.calls| && w.calls[c].stage.Deciding?
      && FreshVerdictId(w.db, Judge(VerdictRowFor(st.thresholds, Judged(w.calls[c].seen, w.calls[c].tool), id)))
    case ReceiveVerdict(c, key) =>
      c < |w.calls| && w.calls[c].stage.Judging? && w.calls[c].session < |w.sessions|
      && w.calls[c].stage.judge < |w.db.txs|
      && var tx := w.db.txs[w.calls[c].stage.judge];
         tx.stage.Committed? && tx.job.Judge? && FreshKey(w, key)
    case LoseVerdict(c) => c < |w.calls| && w.calls[c].stage.Judging?
    case ReceiveResult(c, i) =>
      c < |w.calls| && w.calls[c].stage.Executing?
      && i < |w.db.answers| && w.db.answers[i].tx == w.calls[c].stage.execution
    case LoseResult(c) => c < |w.calls| && w.calls[c].stage.Executing?
    case Service(e) => !e.Begin? && Enabled(w.db, e)
    case Background(job) => BackgroundJob(job) && FreshVerdictId(w.db, job)
  }

  function Goto(w: World, c: nat, stage: CallStage): World
    requires c < |w.calls|
  {
    w.(calls := w.calls[c := w.calls[c].(stage := stage)])
  }

  function AfterDecision(st: Settings, w: World, c: nat, answered: bool, id: Uuid): World
    requires Can(st, w, Decide(c, answered, id))
  {
    var call := w.calls[c];
    var decision := if answered then Some(Recommend(ActionOf(call.tool), call.seen.identityVerified)) else None;
    var context := Parse(ContextOf(call));
    if ConfidenceOf(decision) < st.confidence then Goto(w, c, Over(EscalatedBy("DECISION_LOW_CONFIDENCE")))
    else if context.None? then Goto(w, c, Over(EscalatedBy("POLICY_UNAVAILABLE")))
    else
      var job := Judge(VerdictRowFor(st.thresholds, context.value, id));
      Goto(w.(db := Submit(w.db, job)), c, Judging(|w.db.txs|))
  }

  function AfterVerdict(st: Settings, w: World, c: nat, newKey: Key): World
    requires Can(st, w, ReceiveVerdict(c, newKey))
  {
    var call := w.calls[c];
    var row := w.db.txs[call.stage.judge].job.verdictRow;
    match row.verdict
    case Refused => Goto(w, c, Over(RefusedBy(row.ruleId)))
    case Escalate => Goto(w, c, Over(EscalatedBy(row.ruleId)))
    case Authorized =>
      if row.id == "" then Goto(w, c, Over(EscalatedBy("POLICY_NO_VERDICT_ID"))) else
      var action := ActionOf(call.tool);
      var session := Session.Step(w.sessions[call.session], Session.Keyed(action, newKey));
      var req := RequestFor(ContextOf(call), action, PayloadOf(call.tool), session.keys[action], row.id);
      Goto(w.(sessions := w.sessions[call.session := session],
              db := Submit(w.db, Execute(req))),
           c, Executing(|w.db.txs|))
  }

  function Do(st: Settings, w: World, step: Step): World
    requires Can(st, w, step)
  {
    match step
    case OpenSession(id, customer) => w.(sessions := w.sessions + [Session.NewSession(id, customer)])
    case ChangeSession(s, change) => w.(sessions := w.sessions[s := Session.Step(w.sessions[s], change)])
    case CallTool(s, tool) => w.(calls := w.calls + [Call(s, w.sessions[s], tool, Deciding)])
    case Decide(c, answered, id) => AfterDecision(st, w, c, answered, id)
    case ReceiveVerdict(c, key) => AfterVerdict(st, w, c, key)
    case LoseVerdict(c) => Goto(w, c, Over(EscalatedBy("POLICY_UNAVAILABLE")))
    case ReceiveResult(c, i) =>
      var r := w.db.answers[i].response;
      Goto(w, c, Over(Executed(r.action, r.reference, r.replay)))
    case LoseResult(c) => Goto(w, c, Over(Failed))
    case Service(e) => w.(db := Apply(st.store, w.db, e))
    case Background(job) => w.(db := Submit(w.db, job))
  }

  ghost predicate CanRun(st: Settings, w: World, run: seq<Step>)
    decreases |run|
  {
    run != [] ==> Can(st, w, run[0]) && CanRun(st, Do(st, w, run[0]), run[1..])
  }

  ghost function Ran(st: Settings, w: World, run: seq<Step>): World
    requires CanRun(st, w, run)
    decreases |run|
  {
    if run == [] then w else Ran(st, Do(st, w, run[0]), run[1..])
  }
}
