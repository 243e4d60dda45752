/** The transactional store as a step machine. A service call is one transaction, split where
    another transaction can come in between. Readers see committed tables only; a flush waits for
    an unfinished transaction that holds the same unique key; the audit lock is held from its
    acquisition to the end of the transaction; sequence numbers are never given back. */
module Store {
  import opened Domain
  import opened AuditChain
  import opened PolicyEngine

  // ---------- tables ----------

  datatype Status = Pending | Succeeded

  /** `id` is the primary key; the transaction that inserts a row provides it. */
  datatype ActionRow = ActionRow(id: nat, req: Request, status: Status, reference: Option<string>)

  datatype VerdictRow = VerdictRow(
    id: Uuid,
    session: string,
    customer: Option<string>,
    action: Action,
    outbound: bool,
    verdict: Verdict,
    ruleId: string,
    snapshot: Option<PolicyContext>)

  datatype ConsentRow = ConsentRow(session: string, granted: bool)

  datatype Entity = ActionRef(id: nat) | VerdictRef(verdictId: Uuid) | ConsentRef(consent: nat) | RetentionJob

  datatype AuditRow = AuditRow(seqNo: nat, entity: Entity, entry: Entry)

  /** The durable effect of an action in its own domain. */
  datatype Effect =
    | Payment(account: string, customer: string, amount: real, reference: string, key: Key)
    | PaymentPlan(account: string, customer: string, total: real, verdictId: Uuid)
    | Recharge(subscription: string, amount: real, reference: string, key: Key)
    | SimCase(subscription: string, action: Action, verdictId: Uuid, key: Key)
    | Provisioning(line: Option<string>, action: Action, verdictId: Uuid, key: Key)
    | PlanChange(subscription: string, plan: Value)

  function KeyOf(effect: Effect): Option<Key> {
    match effect
    case Payment(_, _, _, _, key) => Some(key)
    case Recharge(_, _, _, key) => Some(key)
    case SimCase(_, _, _, key) => Some(key)
    case Provisioning(_, _, _, key) => Some(key)
    case _ => None
  }

  datatype Tables = Tables(
    actions: seq<ActionRow>,
    verdicts: seq<VerdictRow>,
    consents: seq<ConsentRow>,
    effects: seq<Effect>,
    audit: seq<AuditRow>)

  const EMPTY := Tables([], [], [], [], [])

  function Merge(a: Tables, b: Tables): Tables {
    Tables(a.actions + b.actions, a.verdicts + b.verdicts, a.consents + b.consents,
           a.effects + b.effects, a.audit + b.audit)
  }

  // ---------- transactions ----------

  datatype Job =
    | Execute(req: Request)
    | Judge(verdictRow: VerdictRow)
    | Consent(consentRow: ConsentRow)
    | Purge(cutoff: int, sessions: nat, turnsAnonymized: nat)

  datatype Stage =
    | Looking      // about to look the idempotency key up
    | Inserting    // about to flush the domain row
    | Rechecking   // rolled back by an integrity error, about to look up again
    | Reserved     // the pending action row is flushed and holds its unique key
    | Written      // the domain row is complete
    | Locked       // the audit lock is granted
    | HeadRead     // the previous hash is read
    | Appended     // the audit row is flushed
    | Projected    // the savepoint is released or rolled back
    | Committed
    | Replayed
    | Aborted

  /** `reference` and `previous` are the local variables of the service code; `projected` says that its
      savepoint was released. */
  datatype Tx = Tx(
    job: Job,
    stage: Stage,
    dispatched: bool,
    reference: string,
    previous: string,
    projected: bool,
    pending: Tables)

  /** A response given to a caller, in the order in which the responses were settled. */
  datatype Answer = Answer(tx: nat, req: Request, response: Response)

  /** `dispatches` are the keys the adapter was called with, whether it answered or raised. */
  datatype Db = Db(
    tables: Tables,
    nextSeq: nat,
    lock: Option<nat>,
    txs: seq<Tx>,
    answers: seq<Answer>,
    dispatches: seq<Key>)

  const INIT := Db(EMPTY, 0, None, [], [], [])

  datatype Config = Config(hashing: Hashing, accounts: map<string, string>)

  datatype Event =
    | Begin(job: Job)
    | Lookup(t: nat)
    | Flush(t: nat)
    | Recheck(t: nat)
    | Dispatch(t: nat, reference: string)
    | DispatchFails(t: nat)
    | Lock(t: nat)
    | ReadHead(t: nat)
    | Append(t: nat, now: string)
    | Project(t: nat, ok: bool)
    | Commit(t: nat)
    | Abort(t: nat)

  // ---------- the rows a job writes ----------

  function DomainRows(t: nat, job: Job, reference: string): Tables {
    match job
    case Execute(req) => EMPTY.(actions := [ActionRow(t, req, Succeeded, Some(reference))])
    case Judge(row) => EMPTY.(verdicts := [row])
    case Consent(row) => EMPTY.(consents := [row])
    case Purge(_, _, _) => EMPTY
  }

  function AuditOf(t: nat, job: Job, reference: string): (Option<string>, EventType, AuditPayload, Entity) {
    match job
    case Execute(req) =>
      (Some(req.session), ExecutionResult, ResultPayload(req.action, reference, req.key), ActionRef(t))
    case Judge(row) =>
      (Some(row.session), PolicyVerdict, VerdictPayload(row.action, row.verdict, row.ruleId), VerdictRef(row.id))
    case Consent(row) => (Some(row.session), EventType.Consent, ConsentPayload(row.granted), ConsentRef(t))
    case Purge(cutoff, sessions, turns) =>
      (None, DataRetention, RetentionPayload(cutoff, sessions, turns), RetentionJob)
  }

  /** `payload.get(field) or 0` for an amount. */
  function MoneyOf(payload: Dict, field: Field): real {
    if field !in payload then 0.0 else
    match payload[field]
    case Money(money) => money
    case Count(count) => count as real
    case _ => 0.0
  }

  /** A value that `or` keeps. */
  predicate Truthy(v: Value) {
    v !in {Null, Text(""), Flag(false), Count(0), Money(0.0)}
  }

  /** `payload.get("plan_code") or "unknown"` */
  function PlanCode(payload: Dict): Value {
    var field := Unread("plan_code");
    if field in payload && Truthy(payload[field]) then payload[field] else Text("unknown")
  }

  /** `payload.get("amount") or payload.get("unpaid_amount") or 0` */
  function PlanTotal(payload: Dict): real {
    if MoneyOf(payload, Amount) != 0.0 then MoneyOf(payload, Amount) else MoneyOf(payload, UnpaidAmount)
  }

  /** The rows an action projects; missing data skips. */
  function ProjectDomainEffect(cfg: Config, req: Request, reference: string): (effects: seq<Effect>)
    ensures forall i :: 0 <= i < |effects| ==> KeyOf(effects[i]) in {None, Some(req.key)}
  {
    var account := if req.customer.Some? && req.customer.value in cfg.accounts
                   then Some(cfg.accounts[req.customer.value]) else None;
    match req.action
    case ExecutePayment =>
      if account.None? then []
      else [Payment(account.value, req.customer.value, MoneyOf(req.payload, Amount), reference, req.key)]
    case PaymentDeferral =>
      if account.None? then []
      else [PaymentPlan(account.value, req.customer.value, PlanTotal(req.payload), req.verdictId)]
    case TopUp =>
      if req.subscription.None? then []
      else [Recharge(req.subscription.value, MoneyOf(req.payload, Amount), reference, req.key)]
    case UnblockSim | ReactivateSim =>
      if req.subscription.None? then [] else [SimCase(req.subscription.value, req.action, req.verdictId, req.key)]
    case ChangePlan | ActivateRoaming =>
      [Provisioning(req.subscription, req.action, req.verdictId, req.key)]
      + (if req.action.ChangePlan? && req.subscription.Some?
         then [PlanChange(req.subscription.value, PlanCode(req.payload))] else [])
    case _ => []
  }

  // ---------- reading ----------

  function ByKey(actions: seq<ActionRow>, key: Key): (r: Option<ActionRow>)
    ensures r.Some? ==> r.value in actions && r.value.req.key == key
    ensures r.None? ==> forall i :: 0 <= i < |actions| ==> actions[i].req.key != key
  {
    if actions == [] then None
    else if actions[0].req.key == key then Some(actions[0])
    else ByKey(actions[1..], key)
  }

  predicate VerdictExists(verdicts: seq<VerdictRow>, id: Uuid) {
    exists i :: 0 <= i < |verdicts| && verdicts[i].id == id
  }

  /** The row a descending order by sequence number puts first. */
  function LatestBySeq(rows: seq<AuditRow>): AuditRow
    requires rows != []
  {
    var last := rows[|rows| - 1];
    if |rows| == 1 then last else
    var rest := LatestBySeq(rows[..|rows| - 1]);
    if rest.seqNo > last.seqNo then rest else last
  }

  function ReadPreviousHash(rows: seq<AuditRow>): string {
    if rows == [] then GENESIS_HASH else LatestBySeq(rows).entry.hash
  }

  /** The rows in ascending order of sequence number. */
  function InSeqOrder(rows: seq<AuditRow>): seq<AuditRow> {
    if rows == [] then [] else Insert(InSeqOrder(rows[..|rows| - 1]), rows[|rows| - 1])
  }

  function Insert(rows: seq<AuditRow>, row: AuditRow): seq<AuditRow> {
    if rows == [] then [row]
    else if rows[|rows| - 1].seqNo <= row.seqNo then rows + [row]
    else Insert(rows[..|rows| - 1], row) + [rows[|rows| - 1]]
  }

  function Entries(rows: seq<AuditRow>): (es: seq<Entry>)
    ensures |es| == |rows| && forall i :: 0 <= i < |es| ==> es[i] == rows[i].entry
  {
    seq(|rows|, i requires 0 <= i < |rows| => rows[i].entry)
  }

  // ---------- the steps ----------

  predicate Finished(tx: Tx) {
    tx.stage.Committed? || tx.stage.Replayed? || tx.stage.Aborted?
  }

  /** The flushed action row of an unfinished transaction reserves its key. */
  predicate HoldsKey(tx: Tx, key: Key) {
    && tx.job.Execute? && tx.job.req.key == key
    && (tx.stage.Reserved? || tx.stage.Written? || HoldsLock(tx))
  }

  predicate HoldsLock(tx: Tx) {
    tx.stage.Locked? || tx.stage.HeadRead? || tx.stage.Appended? || tx.stage.Projected?
  }

  predicate KeyIsHeld(db: Db, key: Key) {
    exists u :: 0 <= u < |db.txs| && HoldsKey(db.txs[u], key)
  }

  /** A verdict id is a new UUID. */
  predicate FreshVerdictId(db: Db, job: Job) {
    job.Judge? ==>
      forall u :: 0 <= u < |db.txs| && db.txs[u].job.Judge? ==> db.txs[u].job.verdictRow.id != job.verdictRow.id
  }

  predicate ReadyToCommit(tx: Tx) {
    if tx.job.Execute? then tx.stage.Projected? else tx.stage.Appended?
  }

  predicate Enabled(db: Db, e: Event) {
    if e.Begin? then FreshVerdictId(db, e.job) else
    e.t < |db.txs| &&
    var tx := db.txs[e.t];
    match e
    case Lookup(_) => tx.stage.Looking? && tx.job.Execute?
    case Flush(_) => tx.stage.Inserting? && (tx.job.Execute? ==> !KeyIsHeld(db, tx.job.req.key))
    case Recheck(_) => tx.stage.Rechecking? && tx.job.Execute?
    case Dispatch(_, _) => tx.stage.Reserved? && tx.job.Execute?
    case DispatchFails(_) => tx.stage.Reserved? && tx.job.Execute?
    case Lock(_) => tx.stage.Written? && db.lock.None?
    case ReadHead(_) => tx.stage.Locked?
    case Append(_, _) => tx.stage.HeadRead?
    case Project(_, _) => tx.stage.Appended? && tx.job.Execute?
    case Commit(_) => ReadyToCommit(tx)
    case Abort(_) => !Finished(tx)
  }

  function Opened(job: Job): Tx {
    Tx(job, if job.Execute? then Looking else Inserting, false, "", "", false, EMPTY)
  }

  function Submit(db: Db, job: Job): Db {
    db.(txs := db.txs + [Opened(job)])
  }

  function Replay(row: ActionRow): Response {
    Response(row.reference.GetOr(""), row.req.action, true)
  }

  /** What the row lookup of a request answers, before the flush or after a failed one. */
  function AfterLookup(db: Db, t: nat, otherwise: Stage): Db
    requires t < |db.txs| && db.txs[t].job.Execute?
  {
    var tx := db.txs[t];
    var existing := ByKey(db.tables.actions, tx.job.req.key);
    if existing.Some? then
      db.(txs := db.txs[t := tx.(stage := Replayed)],
          answers := db.answers + [Answer(t, tx.job.req, Replay(existing.value))])
    else
      db.(txs := db.txs[t := tx.(stage := otherwise)])
  }

  predicate IntegrityError(db: Db, job: Job) {
    job.Execute? &&
    (ByKey(db.tables.actions, job.req.key).Some? || !VerdictExists(db.tables.verdicts, job.req.verdictId))
  }

  function AfterFlush(tx: Tx, t: nat, conflict: bool): Tx {
    if conflict then tx.(stage := Rechecking, pending := EMPTY)
    else if tx.job.Execute? then
      tx.(stage := Reserved, pending := EMPTY.(actions := [ActionRow(t, tx.job.req, Pending, None)]))
    else tx.(stage := Written, pending := DomainRows(t, tx.job, ""))
  }

  function NewAuditRow(cfg: Config, tx: Tx, t: nat, seqNo: nat, now: string): AuditRow {
    var (session, event, payload, entity) := AuditOf(t, tx.job, tx.reference);
    AuditRow(seqNo, entity, BuildEntry(cfg.hashing, session, event, payload, tx.previous, now))
  }

  function AfterCommit(db: Db, t: nat): Db
    requires t < |db.txs|
  {
    var tx := db.txs[t];
    db.(tables := Merge(db.tables, tx.pending),
        lock := None,
        txs := db.txs[t := tx.(stage := Committed, pending := EMPTY)],
        answers := if tx.job.Execute?
                   then db.answers + [Answer(t, tx.job.req, Response(tx.reference, tx.job.req.action, false))]
                   else db.answers)
  }

  function Apply(cfg: Config, db: Db, e: Event): Db
    requires Enabled(db, e)
  {
    match e
    case Begin(job) => Submit(db, job)
    case Lookup(t) => AfterLookup(db, t, Inserting)
    case Recheck(t) => AfterLookup(db, t, Aborted)
    case Flush(t) =>
      db.(txs := db.txs[t := AfterFlush(db.txs[t], t, IntegrityError(db, db.txs[t].job))])
    case Dispatch(t, reference) =>
      var tx := db.txs[t];
      db.(dispatches := db.dispatches + [tx.job.req.key],
          txs := db.txs[t := tx.(stage := Written, dispatched := true, reference := reference,
                                 pending := DomainRows(t, tx.job, reference))])
    case DispatchFails(t) =>
      db.(dispatches := db.dispatches + [db.txs[t].job.req.key],
          txs := db.txs[t := db.txs[t].(stage := Aborted, dispatched := true, pending := EMPTY)])
    case Lock(t) =>
      db.(lock := Some(t), txs := db.txs[t := db.txs[t].(stage := Locked)])
    case ReadHead(t) =>
      db.(txs := db.txs[t := db.txs[t].(stage := HeadRead, previous := ReadPreviousHash(db.tables.audit))])
    case Append(t, now) =>
      var tx := db.txs[t];
      db.(nextSeq := db.nextSeq + 1,
          txs := db.txs[t := tx.(stage := Appended,
                                 pending := tx.pending.(audit := [NewAuditRow(cfg, tx, t, db.nextSeq, now)]))])
    case Project(t, ok) =>
      var tx := db.txs[t];
      var effects := if ok then ProjectDomainEffect(cfg, tx.job.req, tx.reference) else [];
      db.(txs := db.txs[t := tx.(stage := Projected, projected := ok, pending := tx.pending.(effects := effects))])
    case Commit(t) => AfterCommit(db, t)
    case Abort(t) =>
      db.(lock := if HoldsLock(db.txs[t]) then None else db.lock,
          txs := db.txs[t := db.txs[t].(stage := Aborted, pending := EMPTY)])
  }
}
