/** The Postgres execution service against the in-memory one: every interleaving of transactions
    answers as the in-memory service does when it is called once per answer, in order. */
module Linearizability {
  import opened Domain
  import opened AuditChain
  import opened Store
  import opened StoreInvariant
  import opened StoreChain
  import opened InMemory

  /** The in-memory service called for each answer in turn, its dispatcher giving that reference. */
  ghost function Sequential(answers: seq<Answer>): Memory {
    if answers == [] then NOTHING else
    var last := answers[|answers| - 1];
    ExecuteOnce(Sequential(answers[..|answers| - 1]), last.req, last.response.reference).0
  }

  /** Every answer is the one the in-memory service gives at that point. */
  ghost predicate AnswersAsSequential(answers: seq<Answer>) {
    answers != [] ==>
      var front, last := answers[..|answers| - 1], answers[|answers| - 1];
      && AnswersAsSequential(front)
      && ExecuteOnce(Sequential(front), last.req, last.response.reference).1 == last.response
  }

  lemma SequentialExtend(answers: seq<Answer>, a: Answer)
    ensures Sequential(answers + [a]) == ExecuteOnce(Sequential(answers), a.req, a.response.reference).0
    ensures AnswersAsSequential(answers + [a]) <==>
            AnswersAsSequential(answers) &&
            ExecuteOnce(Sequential(answers), a.req, a.response.reference).1 == a.response
  {
    assert (answers + [a])[..|answers|] == answers;
  }

  /** The memory that the committed tables amount to. */
  ghost predicate Represents(m: Memory, tables: Tables) {
    && (forall key :: key in m.results <==> ByKey(tables.actions, key).Some?)
    && (forall key :: key in m.results ==>
          m.results[key] == Replay(ByKey(tables.actions, key).value).(replay := false))
    && m.audited == Executions(tables.audit)
  }

  /** The `execution_result` entries in the order of the chain. */
  ghost function Executions(rows: seq<AuditRow>): seq<(string, AuditPayload)> {
    if rows == [] then [] else
    var last := rows[|rows| - 1].entry;
    Executions(rows[..|rows| - 1])
    + if last.event.ExecutionResult? then [(last.session.GetOr(""), last.payload)] else []
  }

  lemma ExecutionsExtend(rows: seq<AuditRow>, row: AuditRow)
    ensures Executions(rows + [row]) ==
            Executions(rows)
            + if row.entry.event.ExecutionResult? then [(row.entry.session.GetOr(""), row.entry.payload)] else []
  {
    assert (rows + [row])[..|rows|] == rows;
  }

  lemma {:induction false} ByKeyExtend(actions: seq<ActionRow>, row: ActionRow, key: Key)
    ensures ByKey(actions + [row], key) ==
            if ByKey(actions, key).Some? then ByKey(actions, key)
            else if row.req.key == key then Some(row) else None
  {
    if actions == [] {
      assert actions + [row] == [row];
    } else {
      assert (actions + [row])[1..] == actions[1..] + [row];
      ByKeyExtend(actions[1..], row, key);
    }
  }

  ghost predicate AnswersOk(db: Db) {
    AnswersAsSequential(db.answers) && Represents(Sequential(db.answers), db.tables)
  }

  lemma AnswersOkLookup(db: Db, t: nat, otherwise: Stage)
    requires AnswersOk(db) && t < |db.txs| && db.txs[t].job.Execute?
    ensures AnswersOk(AfterLookup(db, t, otherwise))
  {
    var key := db.txs[t].job.req.key;
    var existing := ByKey(db.tables.actions, key);
    if existing.Some? {
      assert key in Sequential(db.answers).results;
      SequentialExtend(db.answers, Answer(t, db.txs[t].job.req, Replay(existing.value)));
    }
  }

  /** A new action row and its audit entry keep the tables and the memory in step. */
  lemma RepresentsExtend(m: Memory, tables: Tables, more: Tables, action: ActionRow, row: AuditRow)
    requires Represents(m, tables) && Absent(tables.actions, action.req.key) && action.reference.Some?
    requires more.actions == tables.actions + [action] && more.audit == tables.audit + [row]
    requires row.entry.event.ExecutionResult? && row.entry.session == Some(action.req.session)
    requires row.entry.payload == ResultPayload(action.req.action, action.reference.value, action.req.key)
    ensures ExecuteOnce(m, action.req, action.reference.value).1 ==
            Response(action.reference.value, action.req.action, false)
    ensures Represents(ExecuteOnce(m, action.req, action.reference.value).0, more)
  {
    ExecutionsExtend(tables.audit, row);
    forall key ensures ByKey(more.actions, key) ==
                       if key == action.req.key then Some(action) else ByKey(tables.actions, key)
    {
      ByKeyExtend(tables.actions, action, key);
    }
  }

  /** A new answer that executes, with the rows that go with it. */
  lemma AnswersOkExecuted(db: Db, db': Db, t: nat, action: ActionRow, row: AuditRow)
    requires AnswersOk(db) && Absent(db.tables.actions, action.req.key) && action.reference.Some?
    requires db'.tables.actions == db.tables.actions + [action] && db'.tables.audit == db.tables.audit + [row]
    requires row.entry.event.ExecutionResult? && row.entry.session == Some(action.req.session)
    requires row.entry.payload == ResultPayload(action.req.action, action.reference.value, action.req.key)
    requires db'.answers ==
             db.answers + [Answer(t, action.req, Response(action.reference.value, action.req.action, false))]
    ensures AnswersOk(db')
  {
    SequentialExtend(db.answers, db'.answers[|db.answers|]);
    RepresentsExtend(Sequential(db.answers), db.tables, db'.tables, action, row);
  }

  /** What the commit of an execution adds. */
  lemma ExecutionIsAdded(cfg: Config, db: Db, t: nat) returns (action: ActionRow, row: AuditRow)
    requires TxsOk(cfg, db) && KeysOk(db) && Enabled(db, Commit(t)) && db.txs[t].job.Execute?
    ensures Absent(db.tables.actions, action.req.key) && action.reference.Some?
    ensures var db' := Apply(cfg, db, Commit(t));
            && db'.tables.actions == db.tables.actions + [action] && db'.tables.audit == db.tables.audit + [row]
            && db'.answers ==
               db.answers + [Answer(t, action.req, Response(action.reference.value, action.req.action, false))]
    ensures row.entry.event.ExecutionResult? && row.entry.session == Some(action.req.session)
    ensures row.entry.payload == ResultPayload(action.req.action, action.reference.value, action.req.key)
  {
    var tx := db.txs[t];
    assert TxOk(cfg, tx, t) && Holds(tx);
    action, row := ActionRow(t, tx.job.req, Succeeded, Some(tx.reference)), tx.pending.audit[0];
  }

  /** What the commit of another transaction adds. */
  lemma NoExecutionIsAdded(cfg: Config, db: Db, t: nat) returns (row: AuditRow)
    requires TxsOk(cfg, db) && Enabled(db, Commit(t)) && !db.txs[t].job.Execute?
    ensures var db' := Apply(cfg, db, Commit(t));
            && db'.tables.actions == db.tables.actions && db'.tables.audit == db.tables.audit + [row]
            && db'.answers == db.answers
    ensures !row.entry.event.ExecutionResult?
  {
    assert TxOk(cfg, db.txs[t], t);
    row := db.txs[t].pending.audit[0];
  }

  lemma AnswersOkUnexecuted(db: Db, db': Db, row: AuditRow)
    requires AnswersOk(db) && !row.entry.event.ExecutionResult?
    requires db'.tables.actions == db.tables.actions && db'.tables.audit == db.tables.audit + [row]
    requires db'.answers == db.answers
    ensures AnswersOk(db')
  {
    ExecutionsExtend(db.tables.audit, row);
  }

  lemma AnswersOkCommit(cfg: Config, db: Db, t: nat)
    requires TxsOk(cfg, db) && KeysOk(db) && AnswersOk(db) && Enabled(db, Commit(t))
    ensures AnswersOk(Apply(cfg, db, Commit(t)))
  {
    if db.txs[t].job.Execute? {
      var action, row := ExecutionIsAdded(cfg, db, t);
      AnswersOkExecuted(db, Apply(cfg, db, Commit(t)), t, action, row);
    } else {
      var row := NoExecutionIsAdded(cfg, db, t);
      AnswersOkUnexecuted(db, Apply(cfg, db, Commit(t)), row);
    }
  }

  lemma AnswersOkStep(cfg: Config, db: Db, e: Event)
    requires TxsOk(cfg, db) && KeysOk(db) && AnswersOk(db) && Enabled(db, e)
    ensures AnswersOk(Apply(cfg, db, e))
  {
    if e.Lookup? {
      AnswersOkLookup(db, e.t, Inserting);
    } else if e.Recheck? {
      AnswersOkLookup(db, e.t, Aborted);
    } else if e.Commit? {
      AnswersOkCommit(cfg, db, e.t);
    } else {
      assert Apply(cfg, db, e).tables == db.tables && Apply(cfg, db, e).answers == db.answers;
    }
  }

  // ---------- the whole invariant ----------

  ghost predicate Inv(cfg: Config, db: Db) {
    && TxsOk(cfg, db) && LockOk(db) && KeysOk(db) && RowsOk(db)
    && ChainOk(cfg, db) && BooksOk(cfg, db.tables) && EffectsOk(cfg, db) && AnswersOk(db)
  }

  lemma InvStep(cfg: Config, db: Db, e: Event)
    requires Inv(cfg, db) && Enabled(db, e)
    ensures Inv(cfg, Apply(cfg, db, e))
  {
    TxsOkStep(cfg, db, e);
    LockOkStep(cfg, db, e);
    KeysOkStep(cfg, db, e);
    RowsOkStep(cfg, db, e);
    ChainOkStep(cfg, db, e);
    BooksOkStep(cfg, db, e);
    EffectsOkStep(cfg, db, e);
    AnswersOkStep(cfg, db, e);
  }

  lemma InvInit(cfg: Config)
    ensures Inv(cfg, INIT)
  {
  }

  lemma {:induction false} InvAlways(cfg: Config, db: Db, run: seq<Event>)
    requires Inv(cfg, db) && Legal(cfg, db, run)
    ensures Inv(cfg, After(cfg, db, run))
    decreases |run|
  {
    if run != [] {
      InvStep(cfg, db, run[0]);
      InvAlways(cfg, Apply(cfg, db, run[0]), run[1..]);
    }
  }
}
