/** What every step of every transaction keeps, so what holds in every reachable state. */
module StoreInvariant {
  import opened Domain
  import opened AuditChain
  import opened Store

  // ---------- runs ----------

  ghost predicate Legal(cfg: Config, db: Db, run: seq<Event>)
    decreases |run|
  {
    run != [] ==> Enabled(db, run[0]) && Legal(cfg, Apply(cfg, db, run[0]), run[1..])
  }

  ghost function After(cfg: Config, db: Db, run: seq<Event>): Db
    requires Legal(cfg, db, run)
    decreases |run|
  {
    if run == [] then db else After(cfg, Apply(cfg, db, run[0]), run[1..])
  }

  // ---------- the shape of a transaction at each stage ----------

  ghost predicate Audited(cfg: Config, tx: Tx, t: nat) {
    && |tx.pending.audit| == 1
    && tx.pending.audit[0] == NewAuditRow(cfg, tx, t, tx.pending.audit[0].seqNo, tx.pending.audit[0].entry.timestamp)
  }

  ghost predicate Projections(cfg: Config, tx: Tx)
    requires tx.job.Execute?
  {
    tx.pending.effects == if tx.projected then ProjectDomainEffect(cfg, tx.job.req, tx.reference) else []
  }

  ghost predicate TxOk(cfg: Config, tx: Tx, t: nat) {
    match tx.stage
    case Looking | Rechecking | Replayed => tx.job.Execute? && tx.pending == EMPTY && !tx.dispatched
    case Inserting => tx.pending == EMPTY && !tx.dispatched
    case Reserved =>
      tx.job.Execute? && !tx.dispatched && tx.pending == EMPTY.(actions := [ActionRow(t, tx.job.req, Pending, None)])
    case Written | Locked | HeadRead =>
      tx.dispatched == tx.job.Execute? && tx.pending == DomainRows(t, tx.job, tx.reference)
    case Appended =>
      && tx.dispatched == tx.job.Execute? && Audited(cfg, tx, t)
      && tx.pending == DomainRows(t, tx.job, tx.reference).(audit := tx.pending.audit)
    case Projected =>
      && tx.dispatched && tx.job.Execute? && Audited(cfg, tx, t) && Projections(cfg, tx)
      && tx.pending == DomainRows(t, tx.job, tx.reference).(audit := tx.pending.audit, effects := tx.pending.effects)
    case Committed => tx.dispatched == tx.job.Execute? && tx.pending == EMPTY
    case Aborted => tx.pending == EMPTY && (tx.dispatched ==> tx.job.Execute?)
  }

  ghost predicate TxsOk(cfg: Config, db: Db) {
    forall u :: 0 <= u < |db.txs| ==> TxOk(cfg, db.txs[u], u)
  }

  /** A step opens a transaction or moves one. */
  lemma OneTxMoves(cfg: Config, db: Db, e: Event, u: nat)
    requires Enabled(db, e) && u < |Apply(cfg, db, e).txs|
    ensures var txs := Apply(cfg, db, e).txs;
            if u == |db.txs| then e.Begin? && txs[u] == Opened(e.job)
            else u < |db.txs| && (e.Begin? || u != e.t ==> txs[u] == db.txs[u])
  {
  }

  lemma MovedTxOk(cfg: Config, db: Db, e: Event)
    requires Enabled(db, e) && !e.Begin? && TxOk(cfg, db.txs[e.t], e.t)
    ensures TxOk(cfg, Apply(cfg, db, e).txs[e.t], e.t)
  {
  }

  lemma TxsOkStep(cfg: Config, db: Db, e: Event)
    requires TxsOk(cfg, db) && Enabled(db, e)
    ensures TxsOk(cfg, Apply(cfg, db, e))
  {
    forall u: nat | u < |Apply(cfg, db, e).txs| ensures TxOk(cfg, Apply(cfg, db, e).txs[u], u) {
      OneTxMoves(cfg, db, e, u);
      if !e.Begin? && u == e.t {
        MovedTxOk(cfg, db, e);
      }
    }
  }

  // ---------- the audit lock ----------

  /** The lock is with the one transaction that is between its acquisition and its end. */
  ghost predicate LockOk(db: Db) {
    && (db.lock.Some? ==> db.lock.value < |db.txs| && HoldsLock(db.txs[db.lock.value]))
    && (forall u :: 0 <= u < |db.txs| && HoldsLock(db.txs[u]) ==> db.lock == Some(u))
  }

  /** What a step does to the lock. */
  lemma LockMoves(cfg: Config, db: Db, e: Event)
    requires LockOk(db) && Enabled(db, e) && !e.Begin?
    ensures var db' := Apply(cfg, db, e);
            db'.lock == if HoldsLock(db'.txs[e.t]) then Some(e.t) else if HoldsLock(db.txs[e.t]) then None else db.lock
  {
  }

  lemma LockOkStep(cfg: Config, db: Db, e: Event)
    requires LockOk(db) && Enabled(db, e)
    ensures LockOk(Apply(cfg, db, e))
  {
    var db' := Apply(cfg, db, e);
    if !e.Begin? {
      LockMoves(cfg, db, e);
      if HoldsLock(db'.txs[e.t]) {
        LockIsFree(cfg, db, e);
      }
    }
    forall u: nat | u < |db'.txs| && HoldsLock(db'.txs[u]) ensures db'.lock == Some(u) {
      OneTxMoves(cfg, db, e, u);
    }
    if db'.lock.Some? && db'.lock == db.lock {
      OneTxMoves(cfg, db, e, db.lock.value);
    }
  }

  /** Who gets the lock gets it when nobody has it. */
  lemma LockIsFree(cfg: Config, db: Db, e: Event)
    requires LockOk(db) && Enabled(db, e) && !e.Begin? && HoldsLock(Apply(cfg, db, e).txs[e.t])
    ensures db.lock == Some(e.t) || db.lock == None
  {
  }

  // ---------- the unique key ----------

  ghost predicate UniqueKeys(actions: seq<ActionRow>) {
    forall i, j :: 0 <= i < j < |actions| ==> actions[i].req.key != actions[j].req.key
  }

  ghost predicate Absent(actions: seq<ActionRow>, key: Key) {
    forall i :: 0 <= i < |actions| ==> actions[i].req.key != key
  }

  /** A key is committed once, or held by one unfinished transaction, or neither. */
  ghost predicate KeysOk(db: Db) {
    && UniqueKeys(db.tables.actions)
    && (forall u :: 0 <= u < |db.txs| && Holds(db.txs[u]) ==> Absent(db.tables.actions, db.txs[u].job.req.key))
    && (forall u, v :: 0 <= u < v < |db.txs| && Holds(db.txs[u]) && Holds(db.txs[v]) ==>
          db.txs[u].job.req.key != db.txs[v].job.req.key)
  }

  predicate Holds(tx: Tx) {
    tx.job.Execute? && HoldsKey(tx, tx.job.req.key)
  }

  /** Only a flush makes a transaction hold a key. */
  ghost predicate NoKeyGained(db: Db, db': Db) {
    forall u :: 0 <= u < |db'.txs| && Holds(db'.txs[u]) ==>
      u < |db.txs| && Holds(db.txs[u]) && db'.txs[u].job == db.txs[u].job
  }

  lemma MovedTxGainsNoKey(cfg: Config, db: Db, e: Event)
    requires Enabled(db, e) && !e.Begin? && !e.Flush?
    ensures var tx := Apply(cfg, db, e).txs[e.t];
            tx.job == db.txs[e.t].job && (Holds(tx) ==> Holds(db.txs[e.t]))
  {
  }

  lemma NoKeyGainedStep(cfg: Config, db: Db, e: Event)
    requires Enabled(db, e) && !e.Flush?
    ensures NoKeyGained(db, Apply(cfg, db, e))
  {
    forall u: nat | u < |Apply(cfg, db, e).txs| && Holds(Apply(cfg, db, e).txs[u])
      ensures u < |db.txs| && Holds(db.txs[u]) && Apply(cfg, db, e).txs[u].job == db.txs[u].job
    {
      OneTxMoves(cfg, db, e, u);
      if !e.Begin? {
        MovedTxGainsNoKey(cfg, db, e);
      }
    }
  }

  lemma KeysOkFlush(cfg: Config, db: Db, t: nat)
    requires KeysOk(db) && Enabled(db, Flush(t))
    ensures KeysOk(Apply(cfg, db, Flush(t)))
  {
    var db' := Apply(cfg, db, Flush(t));
    assert forall u :: 0 <= u < |db.txs| && u != t ==> db'.txs[u] == db.txs[u];
    if Holds(db'.txs[t]) {
      forall u | 0 <= u < |db.txs| && u != t && Holds(db.txs[u])
        ensures db.txs[u].job.req.key != db.txs[t].job.req.key
      {
        assert !HoldsKey(db.txs[u], db.txs[t].job.req.key);
      }
    }
  }

  lemma KeysOkCommit(cfg: Config, db: Db, t: nat)
    requires TxsOk(cfg, db) && KeysOk(db) && Enabled(db, Commit(t))
    ensures KeysOk(Apply(cfg, db, Commit(t)))
  {
    var tx, db' := db.txs[t], Apply(cfg, db, Commit(t));
    assert TxOk(cfg, tx, t);
    NoKeyGainedStep(cfg, db, Commit(t));
    assert !Holds(db'.txs[t]);
    if tx.job.Execute? {
      assert Holds(tx);
      assert db'.tables.actions == db.tables.actions + [ActionRow(t, tx.job.req, Succeeded, Some(tx.reference))];
    } else {
      assert db'.tables.actions == db.tables.actions;
    }
  }

  lemma KeysOkStep(cfg: Config, db: Db, e: Event)
    requires TxsOk(cfg, db) && KeysOk(db) && Enabled(db, e)
    ensures KeysOk(Apply(cfg, db, e))
  {
    if e.Flush? {
      KeysOkFlush(cfg, db, e.t);
    } else if e.Commit? {
      KeysOkCommit(cfg, db, e.t);
    } else {
      NoKeyGainedStep(cfg, db, e);
      assert Apply(cfg, db, e).tables == db.tables;
    }
  }

  // ---------- rows and their transactions ----------

  ghost predicate CommittedBy(db: Db, row: ActionRow) {
    && row.id < |db.txs|
    && var tx := db.txs[row.id];
       tx.stage.Committed? && tx.job == Execute(row.req) && row.reference == Some(tx.reference)
  }

  ghost predicate RowOk(db: Db, row: ActionRow) {
    && row.status == Succeeded
    && VerdictExists(db.tables.verdicts, row.req.verdictId)
    && CommittedBy(db, row)
  }

  /** Every committed row has succeeded, points to a persisted verdict, and is the row of the
      committed transaction whose id it carries; every such transaction has its row. */
  ghost predicate RowsOk(db: Db) {
    && (forall i :: 0 <= i < |db.tables.actions| ==> RowOk(db, db.tables.actions[i]))
    && (forall u :: 0 <= u < |db.txs| && db.txs[u].stage.Committed? && db.txs[u].job.Execute? ==> HasRow(db, u))
    && (forall u :: 0 <= u < |db.txs| && Holds(db.txs[u]) ==>
          VerdictExists(db.tables.verdicts, db.txs[u].job.req.verdictId))
  }

  lemma VerdictStays(verdicts: seq<VerdictRow>, more: seq<VerdictRow>, id: Uuid)
    requires VerdictExists(verdicts, id)
    ensures VerdictExists(verdicts + more, id)
  {
    var i :| 0 <= i < |verdicts| && verdicts[i].id == id;
    assert (verdicts + more)[i].id == id;
  }

  ghost predicate HasRow(db: Db, u: nat) {
    exists i :: 0 <= i < |db.tables.actions| && db.tables.actions[i].id == u
  }

  lemma RowsOkCommit(cfg: Config, db: Db, t: nat)
    requires TxsOk(cfg, db) && RowsOk(db) && Enabled(db, Commit(t))
    ensures RowsOk(Apply(cfg, db, Commit(t)))
  {
    var tx, db' := db.txs[t], Apply(cfg, db, Commit(t));
    assert TxOk(cfg, tx, t);
    NoKeyGainedStep(cfg, db, Commit(t));
    forall id | VerdictExists(db.tables.verdicts, id) ensures VerdictExists(db'.tables.verdicts, id) {
      VerdictStays(db.tables.verdicts, tx.pending.verdicts, id);
    }
    forall i | 0 <= i < |db'.tables.actions| ensures RowOk(db', db'.tables.actions[i]) {
      if i < |db.tables.actions| {
        assert RowOk(db, db.tables.actions[i]) && db'.tables.actions[i] == db.tables.actions[i];
      }
    }
    forall u | 0 <= u < |db'.txs| && db'.txs[u].stage.Committed? && db'.txs[u].job.Execute? ensures HasRow(db', u) {
      if u == t {
        assert db'.tables.actions[|db.tables.actions|].id == u;
      } else {
        assert HasRow(db, u);
        var i :| 0 <= i < |db.tables.actions| && db.tables.actions[i].id == u;
        assert db'.tables.actions[i].id == u;
      }
    }
  }

  lemma RowOkStays(cfg: Config, db: Db, e: Event, row: ActionRow)
    requires RowOk(db, row) && Enabled(db, e) && !e.Commit?
    ensures RowOk(Apply(cfg, db, e), row)
  {
    assert Apply(cfg, db, e).tables == db.tables;
    OneTxMoves(cfg, db, e, row.id);
  }

  /** A flush checks the verdict; the other steps make no transaction hold a key. */
  lemma HeldHasVerdict(cfg: Config, db: Db, e: Event, u: nat)
    requires RowsOk(db) && Enabled(db, e) && !e.Commit?
    requires u < |Apply(cfg, db, e).txs| && Holds(Apply(cfg, db, e).txs[u])
    ensures VerdictExists(db.tables.verdicts, Apply(cfg, db, e).txs[u].job.req.verdictId)
  {
    OneTxMoves(cfg, db, e, u);
    if !e.Flush? {
      NoKeyGainedStep(cfg, db, e);
    }
  }

  lemma NoneCommitted(cfg: Config, db: Db, e: Event, u: nat)
    requires Enabled(db, e) && !e.Commit? && u < |Apply(cfg, db, e).txs| && Apply(cfg, db, e).txs[u].stage.Committed?
    ensures u < |db.txs| && db.txs[u] == Apply(cfg, db, e).txs[u]
  {
    OneTxMoves(cfg, db, e, u);
  }

  lemma RowsOkOther(cfg: Config, db: Db, e: Event)
    requires RowsOk(db) && Enabled(db, e) && !e.Commit?
    ensures RowsOk(Apply(cfg, db, e))
  {
    var db' := Apply(cfg, db, e);
    assert db'.tables == db.tables;
    forall i | 0 <= i < |db.tables.actions| ensures RowOk(db', db.tables.actions[i]) {
      RowOkStays(cfg, db, e, db.tables.actions[i]);
    }
    forall u: nat | u < |db'.txs| && db'.txs[u].stage.Committed? && db'.txs[u].job.Execute? ensures HasRow(db', u) {
      NoneCommitted(cfg, db, e, u);
      assert HasRow(db, u);
    }
    forall u: nat | u < |db'.txs| && Holds(db'.txs[u])
      ensures VerdictExists(db.tables.verdicts, db'.txs[u].job.req.verdictId)
    {
      HeldHasVerdict(cfg, db, e, u);
    }
  }

  lemma RowsOkStep(cfg: Config, db: Db, e: Event)
    requires TxsOk(cfg, db) && RowsOk(db) && Enabled(db, e)
    ensures RowsOk(Apply(cfg, db, e))
  {
    if e.Commit? {
      RowsOkCommit(cfg, db, e.t);
    } else {
      RowsOkOther(cfg, db, e);
    }
  }
}
