/** The audit chain under concurrent appenders, and the one-to-one match of ledger rows and audit
    entries. */
module StoreChain {
  import opened Domain
  import opened AuditChain
  import opened Store
  import opened StoreInvariant

  // ---------- order by sequence number ----------

  ghost predicate Increasing(rows: seq<AuditRow>) {
    forall i, j :: 0 <= i < j < |rows| ==> rows[i].seqNo < rows[j].seqNo
  }

  ghost predicate Below(rows: seq<AuditRow>, n: nat) {
    forall i :: 0 <= i < |rows| ==> rows[i].seqNo < n
  }

  lemma {:induction false} LatestIsLast(rows: seq<AuditRow>)
    requires Increasing(rows) && rows != []
    ensures LatestBySeq(rows) == rows[|rows| - 1]
  {
    if |rows| > 1 {
      LatestIsLast(rows[..|rows| - 1]);
    }
  }

  /** Commit order and sequence order are the same. */
  lemma {:induction false} SeqOrderIsCommitOrder(rows: seq<AuditRow>)
    requires Increasing(rows)
    ensures InSeqOrder(rows) == rows
  {
    if rows != [] {
      var front := rows[..|rows| - 1];
      SeqOrderIsCommitOrder(front);
      assert rows == front + [rows[|rows| - 1]];
    }
  }

  ghost predicate Ascending(rows: seq<AuditRow>) {
    forall i, j :: 0 <= i < j < |rows| ==> rows[i].seqNo <= rows[j].seqNo
  }

  lemma {:induction false} InsertBounded(rows: seq<AuditRow>, row: AuditRow, most: int)
    requires row.seqNo <= most && forall i :: 0 <= i < |rows| ==> rows[i].seqNo <= most
    ensures forall i :: 0 <= i < |Insert(rows, row)| ==> Insert(rows, row)[i].seqNo <= most
  {
    if rows != [] && rows[|rows| - 1].seqNo > row.seqNo {
      InsertBounded(rows[..|rows| - 1], row, most);
    }
  }

  lemma {:induction false} InsertAscends(rows: seq<AuditRow>, row: AuditRow)
    requires Ascending(rows)
    ensures Ascending(Insert(rows, row))
  {
    if rows != [] && rows[|rows| - 1].seqNo > row.seqNo {
      InsertAscends(rows[..|rows| - 1], row);
      InsertBounded(rows[..|rows| - 1], row, rows[|rows| - 1].seqNo);
    }
  }

  lemma {:induction false} InsertKeeps(rows: seq<AuditRow>, row: AuditRow)
    ensures multiset(Insert(rows, row)) == multiset(rows) + multiset{row}
  {
    if rows != [] && rows[|rows| - 1].seqNo > row.seqNo {
      InsertKeeps(rows[..|rows| - 1], row);
      assert rows == rows[..|rows| - 1] + [rows[|rows| - 1]];
    }
  }

  /** Ordering by sequence number sorts the rows of any table and keeps every one of them. */
  lemma {:induction false} InSeqOrderSorts(rows: seq<AuditRow>)
    ensures Ascending(InSeqOrder(rows)) && multiset(InSeqOrder(rows)) == multiset(rows)
  {
    if rows != [] {
      var front, last := rows[..|rows| - 1], rows[|rows| - 1];
      InSeqOrderSorts(front);
      InsertAscends(InSeqOrder(front), last);
      InsertKeeps(InSeqOrder(front), last);
      assert rows == front + [last];
    }
  }

  lemma EntriesExtend(rows: seq<AuditRow>, row: AuditRow)
    ensures Entries(rows + [row]) == Entries(rows) + [row.entry]
  {
  }

  lemma PreviousHashIsHead(rows: seq<AuditRow>)
    requires Increasing(rows)
    ensures ReadPreviousHash(rows) == Head(Entries(rows))
  {
    if rows != [] {
      LatestIsLast(rows);
    }
  }

  // ---------- the chain ----------

  /** The next audit row of a transaction that holds the lock. */
  ghost predicate ChainedTx(cfg: Config, db: Db, tx: Tx) {
    && (tx.stage.HeadRead? || tx.stage.Appended? || tx.stage.Projected? ==>
          tx.previous == Head(Entries(db.tables.audit)))
    && (tx.stage.Appended? || tx.stage.Projected? ==>
          |tx.pending.audit| == 1 && Below(db.tables.audit, tx.pending.audit[0].seqNo)
          && tx.pending.audit[0].seqNo < db.nextSeq)
  }

  /** The committed entries form one chain from genesis in sequence order; who holds the lock has
      read its head. */
  ghost predicate ChainOk(cfg: Config, db: Db) {
    && Intact(cfg.hashing, Entries(db.tables.audit))
    && Increasing(db.tables.audit)
    && Below(db.tables.audit, db.nextSeq)
    && forall u :: 0 <= u < |db.txs| ==> ChainedTx(cfg, db, db.txs[u])
  }

  lemma ChainOkCommit(cfg: Config, db: Db, t: nat)
    requires TxsOk(cfg, db) && LockOk(db) && ChainOk(cfg, db) && Enabled(db, Commit(t))
    ensures ChainOk(cfg, Apply(cfg, db, Commit(t)))
  {
    var tx, db' := db.txs[t], Apply(cfg, db, Commit(t));
    assert TxOk(cfg, tx, t) && HoldsLock(tx) && ChainedTx(cfg, db, tx);
    var row := tx.pending.audit[0];
    assert db'.tables.audit == db.tables.audit + [row];
    EntriesExtend(db.tables.audit, row);
    IntactExtend(cfg.hashing, Entries(db.tables.audit), row.entry);
    forall u | 0 <= u < |db'.txs| ensures ChainedTx(cfg, db', db'.txs[u]) {
      assert u != t ==> !HoldsLock(db.txs[u]);
    }
  }

  lemma ChainedTxMoved(cfg: Config, db: Db, e: Event)
    requires ChainOk(cfg, db) && Enabled(db, e) && !e.Begin? && !e.Commit?
    ensures ChainedTx(cfg, Apply(cfg, db, e), Apply(cfg, db, e).txs[e.t])
  {
    assert ChainedTx(cfg, db, db.txs[e.t]);
    if e.ReadHead? {
      PreviousHashIsHead(db.tables.audit);
    }
  }

  lemma ChainOkOther(cfg: Config, db: Db, e: Event)
    requires ChainOk(cfg, db) && Enabled(db, e) && !e.Commit?
    ensures ChainOk(cfg, Apply(cfg, db, e))
  {
    var db' := Apply(cfg, db, e);
    assert db'.tables == db.tables && db.nextSeq <= db'.nextSeq;
    forall u: nat | u < |db'.txs| ensures ChainedTx(cfg, db', db'.txs[u]) {
      OneTxMoves(cfg, db, e, u);
      if u < |db.txs| {
        assert ChainedTx(cfg, db, db.txs[u]);
        if !e.Begin? && u == e.t {
          ChainedTxMoved(cfg, db, e);
        }
      }
    }
  }

  lemma ChainOkStep(cfg: Config, db: Db, e: Event)
    requires TxsOk(cfg, db) && LockOk(db) && ChainOk(cfg, db) && Enabled(db, e)
    ensures ChainOk(cfg, Apply(cfg, db, e))
  {
    if e.Commit? {
      ChainOkCommit(cfg, db, e.t);
    } else {
      ChainOkOther(cfg, db, e);
    }
  }

  // ---------- ledger rows and audit entries ----------

  /** The audit rows that record an execution, a verdict or a consent, in order. */
  ghost function OfEvent(rows: seq<AuditRow>, event: EventType): seq<AuditRow> {
    if rows == [] then [] else
    var front := OfEvent(rows[..|rows| - 1], event);
    if rows[|rows| - 1].entry.event == event then front + [rows[|rows| - 1]] else front
  }

  lemma OfEventExtend(rows: seq<AuditRow>, row: AuditRow, event: EventType)
    ensures OfEvent(rows + [row], event) == OfEvent(rows, event) + if row.entry.event == event then [row] else []
  {
    assert (rows + [row])[..|rows|] == rows;
  }

  ghost predicate RecordsAction(a: AuditRow, row: ActionRow) {
    && row.reference.Some?
    && a.entity == ActionRef(row.id) && a.entry.session == Some(row.req.session)
    && a.entry.payload == ResultPayload(row.req.action, row.reference.value, row.req.key)
  }

  ghost predicate RecordsVerdict(a: AuditRow, row: VerdictRow) {
    && a.entity == VerdictRef(row.id) && a.entry.session == Some(row.session)
    && a.entry.payload == VerdictPayload(row.action, row.verdict, row.ruleId)
  }

  ghost predicate RecordsConsent(a: AuditRow, row: ConsentRow) {
    a.entity.ConsentRef? && a.entry.session == Some(row.session) && a.entry.payload == ConsentPayload(row.granted)
  }

  /** What a list of action rows can have projected: of each row all its effects or none. */
  ghost predicate Explains(cfg: Config, actions: seq<ActionRow>, effects: seq<Effect>)
    decreases |actions|
  {
    if actions == [] then effects == [] else
    var row := actions[|actions| - 1];
    var mine := ProjectDomainEffect(cfg, row.req, row.reference.GetOr(""));
    || Explains(cfg, actions[..|actions| - 1], effects)
    || (|mine| <= |effects| && effects[|effects| - |mine|..] == mine
        && Explains(cfg, actions[..|actions| - 1], effects[..|effects| - |mine|]))
  }

  ghost predicate ActionsRecorded(tables: Tables) {
    var results := OfEvent(tables.audit, ExecutionResult);
    && |results| == |tables.actions|
    && (forall i :: 0 <= i < |results| ==> RecordsAction(results[i], tables.actions[i]))
  }

  ghost predicate VerdictsRecorded(tables: Tables) {
    var verdicts := OfEvent(tables.audit, PolicyVerdict);
    && |verdicts| == |tables.verdicts|
    && (forall i :: 0 <= i < |verdicts| ==> RecordsVerdict(verdicts[i], tables.verdicts[i]))
  }

  ghost predicate ConsentsRecorded(tables: Tables) {
    var consents := OfEvent(tables.audit, EventType.Consent);
    && |consents| == |tables.consents|
    && (forall i :: 0 <= i < |consents| ==> RecordsConsent(consents[i], tables.consents[i]))
  }

  /** In every table the i-th row is the one the i-th audit entry of its kind records. */
  ghost predicate BooksOk(cfg: Config, tables: Tables) {
    && ActionsRecorded(tables) && VerdictsRecorded(tables) && ConsentsRecorded(tables)
    && Explains(cfg, tables.actions, tables.effects)
  }

  /** A new audit row that is of another kind leaves the entries of this kind as they are. */
  lemma OthersOfEvent(rows: seq<AuditRow>, row: AuditRow)
    ensures forall event :: OfEvent(rows + [row], event) ==
                            OfEvent(rows, event) + if row.entry.event == event then [row] else []
  {
    forall event ensures OfEvent(rows + [row], event) ==
                         OfEvent(rows, event) + if row.entry.event == event then [row] else []
    {
      OfEventExtend(rows, row, event);
    }
  }

  lemma ExplainsExtend(cfg: Config, actions: seq<ActionRow>, effects: seq<Effect>, row: ActionRow, more: seq<Effect>)
    requires Explains(cfg, actions, effects)
    requires more in {[], ProjectDomainEffect(cfg, row.req, row.reference.GetOr(""))}
    ensures Explains(cfg, actions + [row], effects + more)
  {
    assert (actions + [row])[..|actions|] == actions;
    assert (effects + more)[..|effects|] == effects && (effects + more)[|effects|..] == more;
    assert more == [] ==> effects + more == effects;
  }

  lemma ActionIsRecorded(tables: Tables, more: Tables, action: ActionRow, row: AuditRow)
    requires ActionsRecorded(tables) && more.actions == [action] && more.audit == [row]
    requires row.entry.event.ExecutionResult? && RecordsAction(row, action)
    ensures ActionsRecorded(Merge(tables, more))
  {
    OfEventExtend(tables.audit, row, ExecutionResult);
  }

  lemma OthersStayRecorded(tables: Tables, more: Tables, row: AuditRow)
    requires VerdictsRecorded(tables) && ConsentsRecorded(tables) && more.audit == [row]
    requires more.verdicts == [] && more.consents == [] && row.entry.event.ExecutionResult?
    ensures VerdictsRecorded(Merge(tables, more)) && ConsentsRecorded(Merge(tables, more))
  {
    OfEventExtend(tables.audit, row, PolicyVerdict);
    OfEventExtend(tables.audit, row, EventType.Consent);
  }

  lemma BooksOkAction(cfg: Config, tables: Tables, more: Tables, action: ActionRow, row: AuditRow)
    requires BooksOk(cfg, tables) && more.actions == [action] && more.audit == [row]
    requires more.verdicts == [] && more.consents == []
    requires row.entry.event.ExecutionResult? && RecordsAction(row, action)
    requires more.effects in {[], ProjectDomainEffect(cfg, action.req, action.reference.GetOr(""))}
    ensures BooksOk(cfg, Merge(tables, more))
  {
    ActionIsRecorded(tables, more, action, row);
    OthersStayRecorded(tables, more, row);
    ExplainsExtend(cfg, tables.actions, tables.effects, action, more.effects);
  }

  lemma BooksOkOther(cfg: Config, tables: Tables, more: Tables, row: AuditRow)
    requires BooksOk(cfg, tables) && more.actions == [] && more.audit == [row] && more.effects == []
    requires match row.entry.event
             case ExecutionResult => false
             case PolicyVerdict => |more.verdicts| == 1 && RecordsVerdict(row, more.verdicts[0]) && more.consents == []
             case Consent => |more.consents| == 1 && RecordsConsent(row, more.consents[0]) && more.verdicts == []
             case DataRetention => more.verdicts == [] && more.consents == []
    ensures BooksOk(cfg, Merge(tables, more))
  {
    OthersOfEvent(tables.audit, row);
    assert Merge(tables, more).actions == tables.actions && Merge(tables, more).effects == tables.effects;
  }

  lemma BooksOkCommit(cfg: Config, db: Db, t: nat)
    requires TxsOk(cfg, db) && BooksOk(cfg, db.tables) && Enabled(db, Commit(t))
    ensures BooksOk(cfg, Apply(cfg, db, Commit(t)).tables)
  {
    var tx := db.txs[t];
    assert TxOk(cfg, tx, t);
    if tx.job.Execute? {
      var action := ActionRow(t, tx.job.req, Succeeded, Some(tx.reference));
      BooksOkAction(cfg, db.tables, tx.pending, action, tx.pending.audit[0]);
    } else {
      BooksOkOther(cfg, db.tables, tx.pending, tx.pending.audit[0]);
    }
  }

  lemma BooksOkStep(cfg: Config, db: Db, e: Event)
    requires TxsOk(cfg, db) && BooksOk(cfg, db.tables) && Enabled(db, e)
    ensures BooksOk(cfg, Apply(cfg, db, e).tables)
  {
    if e.Commit? {
      BooksOkCommit(cfg, db, e.t);
    } else {
      assert Apply(cfg, db, e).tables == db.tables;
    }
  }

  /** The domain row is the effect of this action: it carries the action's key, reference or verdict, and
      the customer, line and amount of its request. */
  ghost predicate EffectOf(cfg: Config, effect: Effect, row: ActionRow) {
    var req := row.req;
    match effect
    case Payment(account, customer, amount, reference, key) =>
      && req.action.ExecutePayment? && req.key == key && row.reference == Some(reference)
      && req.customer == Some(customer) && customer in cfg.accounts && cfg.accounts[customer] == account
      && amount == MoneyOf(req.payload, Amount)
    case PaymentPlan(account, customer, total, verdictId) =>
      && req.action.PaymentDeferral? && req.verdictId == verdictId
      && req.customer == Some(customer) && customer in cfg.accounts && cfg.accounts[customer] == account
      && total == PlanTotal(req.payload)
    case Recharge(line, amount, reference, key) =>
      && req.action.TopUp? && req.key == key && row.reference == Some(reference)
      && req.subscription == Some(line) && amount == MoneyOf(req.payload, Amount)
    case SimCase(line, action, verdictId, key) =>
      && action in {UnblockSim, ReactivateSim} && req.action == action && req.key == key && req.verdictId == verdictId
      && req.subscription == Some(line)
    case Provisioning(line, action, verdictId, key) =>
      && action in {ChangePlan, ActivateRoaming} && req.action == action && req.key == key && req.verdictId == verdictId
      && req.subscription == line
    case PlanChange(line, plan) =>
      req.action.ChangePlan? && req.subscription == Some(line) && plan == PlanCode(req.payload)
  }

  ghost predicate HasAction(cfg: Config, actions: seq<ActionRow>, effect: Effect) {
    exists j :: 0 <= j < |actions| && EffectOf(cfg, effect, actions[j])
  }

  lemma ProjectedEffectsAreOfTheAction(cfg: Config, row: ActionRow, i: nat)
    requires row.reference.Some? && i < |ProjectDomainEffect(cfg, row.req, row.reference.value)|
    ensures EffectOf(cfg, ProjectDomainEffect(cfg, row.req, row.reference.value)[i], row)
  {
  }

  lemma ProjectedTail(cfg: Config, row: ActionRow, effects: seq<Effect>, i: nat)
    requires row.reference.Some? && i < |effects|
    requires var mine := ProjectDomainEffect(cfg, row.req, row.reference.value);
             |mine| <= |effects| && effects[|effects| - |mine|..] == mine && i >= |effects| - |mine|
    ensures EffectOf(cfg, effects[i], row)
  {
    var start := |effects| - |ProjectDomainEffect(cfg, row.req, row.reference.value)|;
    assert effects[i] == effects[start..][i - start];
    ProjectedEffectsAreOfTheAction(cfg, row, i - start);
  }

  /** Every domain row is the effect of a committed action. */
  lemma {:induction false} EveryEffectHasItsAction(cfg: Config, actions: seq<ActionRow>, effects: seq<Effect>, i: nat)
    returns (j: nat)
    requires Explains(cfg, actions, effects) && i < |effects|
    requires forall j :: 0 <= j < |actions| ==> actions[j].reference.Some?
    ensures j < |actions| && EffectOf(cfg, effects[i], actions[j])
    decreases |actions|
  {
    var n := |actions| - 1;
    var k := |effects| - |ProjectDomainEffect(cfg, actions[n].req, actions[n].reference.value)|;
    if Explains(cfg, actions[..n], effects) {
      j := EveryEffectHasItsAction(cfg, actions[..n], effects, i);
    } else if i < k {
      j := EveryEffectHasItsAction(cfg, actions[..n], effects[..k], i);
    } else {
      ProjectedTail(cfg, actions[n], effects, i);
      j := n;
    }
  }

  // ---------- which effects are there ----------

  predicate HasAccount(cfg: Config, req: Request) {
    req.customer.Some? && req.customer.value in cfg.accounts
  }

  /** One effect of one kind when there is what it needs, none otherwise. */
  ghost predicate OneIf(cfg: Config, needed: bool, kind: Effect -> bool, effects: seq<Effect>, row: ActionRow) {
    if needed then |effects| == 1 && kind(effects[0]) && EffectOf(cfg, effects[0], row) else effects == []
  }

  /** What an action leaves in its own domain: a captured payment, a payment plan, a recharge, a SIM case, a
      provisioning request, and with a plan change its history. */
  ghost predicate IsProjectionOf(cfg: Config, row: ActionRow, effects: seq<Effect>) {
    var line := row.req.subscription.Some?;
    match row.req.action
    case ExecutePayment => OneIf(cfg, HasAccount(cfg, row.req), (e: Effect) => e.Payment?, effects, row)
    case PaymentDeferral => OneIf(cfg, HasAccount(cfg, row.req), (e: Effect) => e.PaymentPlan?, effects, row)
    case TopUp => OneIf(cfg, line, (e: Effect) => e.Recharge?, effects, row)
    case UnblockSim => OneIf(cfg, line, (e: Effect) => e.SimCase?, effects, row)
    case ReactivateSim => OneIf(cfg, line, (e: Effect) => e.SimCase?, effects, row)
    case ActivateRoaming => OneIf(cfg, true, (e: Effect) => e.Provisioning?, effects, row)
    case ChangePlan =>
      && |effects| > 0 && OneIf(cfg, true, (e: Effect) => e.Provisioning?, effects[..1], row)
      && OneIf(cfg, line, (e: Effect) => e.PlanChange?, effects[1..], row)
    case ReplaceSim => effects == []
    case Uncatalogued(_) => effects == []
  }

  lemma ProjectionIsComplete(cfg: Config, row: ActionRow)
    requires row.reference.Some?
    ensures IsProjectionOf(cfg, row, ProjectDomainEffect(cfg, row.req, row.reference.value))
  {
    var effects := ProjectDomainEffect(cfg, row.req, row.reference.value);
    forall i: nat | i < |effects| ensures EffectOf(cfg, effects[i], row) {
      ProjectedEffectsAreOfTheAction(cfg, row, i);
    }
  }

  /** The effects of the actions whose savepoint was released, in order. */
  ghost function EffectsOf(cfg: Config, txs: seq<Tx>, actions: seq<ActionRow>): seq<Effect> {
    if actions == [] then [] else
    var row := actions[|actions| - 1];
    EffectsOf(cfg, txs, actions[..|actions| - 1])
    + if row.id < |txs| && txs[row.id].projected then ProjectDomainEffect(cfg, row.req, row.reference.GetOr("")) else []
  }

  /** The domain tables hold those effects and no others. */
  ghost predicate EffectsOk(cfg: Config, db: Db) {
    db.tables.effects == EffectsOf(cfg, db.txs, db.tables.actions)
  }

  lemma {:induction false} EffectsOfSame(cfg: Config, txs: seq<Tx>, txs': seq<Tx>, actions: seq<ActionRow>)
    requires forall i :: 0 <= i < |actions| ==>
               var id := actions[i].id;
               id < |txs| && id < |txs'| && txs'[id].projected == txs[id].projected
    ensures EffectsOf(cfg, txs', actions) == EffectsOf(cfg, txs, actions)
  {
    if actions != [] {
      EffectsOfSame(cfg, txs, txs', actions[..|actions| - 1]);
    }
  }

  lemma EffectsOfExtend(cfg: Config, txs: seq<Tx>, actions: seq<ActionRow>, row: ActionRow)
    requires row.id < |txs|
    ensures EffectsOf(cfg, txs, actions + [row]) ==
            EffectsOf(cfg, txs, actions)
            + if txs[row.id].projected then ProjectDomainEffect(cfg, row.req, row.reference.GetOr("")) else []
  {
    assert (actions + [row])[..|actions|] == actions;
  }

  /** A step leaves the transactions of the committed rows as they are. */
  lemma RowsKeepTheirTxs(cfg: Config, db: Db, e: Event)
    requires RowsOk(db) && Enabled(db, e)
    ensures var txs := Apply(cfg, db, e).txs;
            forall i :: 0 <= i < |db.tables.actions| ==>
              var id := db.tables.actions[i].id;
              id < |db.txs| && id < |txs| && txs[id].projected == db.txs[id].projected
  {
    forall i | 0 <= i < |db.tables.actions|
      ensures var txs, id := Apply(cfg, db, e).txs, db.tables.actions[i].id;
              id < |db.txs| && id < |txs| && txs[id].projected == db.txs[id].projected
    {
      assert RowOk(db, db.tables.actions[i]);
      FinishedStays(cfg, db, e, db.tables.actions[i].id);
    }
  }

  lemma FinishedStays(cfg: Config, db: Db, e: Event, u: nat)
    requires Enabled(db, e) && u < |db.txs| && Finished(db.txs[u])
    ensures u < |Apply(cfg, db, e).txs| && Apply(cfg, db, e).txs[u] == db.txs[u]
  {
  }

  /** What a commit adds to the actions and the effects. */
  lemma CommitAddsEffects(cfg: Config, db: Db, t: nat)
    requires TxsOk(cfg, db) && Enabled(db, Commit(t))
    ensures var tx, after := db.txs[t], Apply(cfg, db, Commit(t));
            && t < |after.txs| && after.txs[t].projected == tx.projected
            && if tx.job.Execute?
               then
                 && after.tables.actions ==
                    db.tables.actions + [ActionRow(t, tx.job.req, Succeeded, Some(tx.reference))]
                 && after.tables.effects == db.tables.effects
                    + if tx.projected then ProjectDomainEffect(cfg, tx.job.req, tx.reference) else []
               else after.tables.actions == db.tables.actions && after.tables.effects == db.tables.effects
  {
    assert TxOk(cfg, db.txs[t], t);
  }

  lemma EffectsOkStep(cfg: Config, db: Db, e: Event)
    requires TxsOk(cfg, db) && RowsOk(db) && EffectsOk(cfg, db) && Enabled(db, e)
    ensures EffectsOk(cfg, Apply(cfg, db, e))
  {
    var after := Apply(cfg, db, e);
    RowsKeepTheirTxs(cfg, db, e);
    EffectsOfSame(cfg, db.txs, after.txs, db.tables.actions);
    if e.Commit? {
      CommitAddsEffects(cfg, db, e.t);
      var tx := db.txs[e.t];
      if tx.job.Execute? {
        EffectsOfExtend(cfg, after.txs, db.tables.actions, ActionRow(e.t, tx.job.req, Succeeded, Some(tx.reference)));
      }
    } else {
      assert after.tables == db.tables;
    }
  }

  /** The effects of one row stand together in the table. */
  lemma {:induction false} RowEffectsAreThere(cfg: Config, txs: seq<Tx>, actions: seq<ActionRow>, i: nat)
    returns (lo: nat, hi: nat)
    requires i < |actions| && actions[i].id < |txs| && txs[actions[i].id].projected
    ensures lo <= hi <= |EffectsOf(cfg, txs, actions)|
    ensures EffectsOf(cfg, txs, actions)[lo..hi] ==
            ProjectDomainEffect(cfg, actions[i].req, actions[i].reference.GetOr(""))
    decreases |actions|
  {
    var n := |actions| - 1;
    var before := EffectsOf(cfg, txs, actions[..n]);
    if i == n {
      lo, hi := |before|, |EffectsOf(cfg, txs, actions)|;
    } else {
      lo, hi := RowEffectsAreThere(cfg, txs, actions[..n], i);
      assert EffectsOf(cfg, txs, actions)[lo..hi] == before[lo..hi];
    }
  }
}
