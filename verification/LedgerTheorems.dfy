/** The guarantees of the execution ledger, for every run of every set of transactions. */
module LedgerTheorems {
  import opened Domain
  import opened AuditChain
  import opened Store
  import opened StoreInvariant
  import opened StoreChain
  import opened InMemory
  import opened Linearizability

  lemma Reachable(cfg: Config, run: seq<Event>)
    requires Legal(cfg, INIT, run)
    ensures Inv(cfg, After(cfg, INIT, run))
  {
    InvInit(cfg);
    InvAlways(cfg, INIT, run);
  }

  /** What the invariant says of the answers alone. */
  lemma ReachableAnswers(cfg: Config, run: seq<Event>)
    requires Legal(cfg, INIT, run)
    ensures AnswersOk(After(cfg, INIT, run))
  {
    Reachable(cfg, run);
  }

  // ---------- linearizability ----------

  /** The responses, the map from keys to references and the order of the audited executions are
      those of the in-memory service called once per answer, executions in commit order and replays
      at their read. */
  lemma Linearizable(cfg: Config, run: seq<Event>)
    requires Legal(cfg, INIT, run)
    ensures var db := After(cfg, INIT, run);
            AnswersAsSequential(db.answers) && Represents(Sequential(db.answers), db.tables)
  {
    ReachableAnswers(cfg, run);
  }

  /** A transaction that is not finished has not been answered. */
  ghost predicate AnsweredWhenFinished(db: Db) {
    forall i :: 0 <= i < |db.answers| ==> AnswerOfFinished(db, db.answers[i])
  }

  ghost predicate AnswerOfFinished(db: Db, a: Answer) {
    && a.tx < |db.txs| && db.txs[a.tx].job == Execute(a.req)
    && db.txs[a.tx].stage == if a.response.replay then Replayed else Committed
  }

  lemma NewAnswers(cfg: Config, db: Db, e: Event)
    requires Enabled(db, e)
    ensures var db' := Apply(cfg, db, e);
            && db.answers <= db'.answers
            && (forall i :: |db.answers| <= i < |db'.answers| ==>
                  !e.Begin? && db'.answers[i].tx == e.t && AnswerOfFinished(db', db'.answers[i]))
            && (forall u :: 0 <= u < |db.txs| && Finished(db.txs[u]) ==> u < |db'.txs| && db'.txs[u] == db.txs[u])
  {
  }

  lemma AnsweredWhenFinishedStep(cfg: Config, db: Db, e: Event)
    requires AnsweredWhenFinished(db) && Enabled(db, e)
    ensures var db' := Apply(cfg, db, e);
            && AnsweredWhenFinished(db') && db.answers <= db'.answers
            && (forall i :: |db.answers| <= i < |db'.answers| ==> !e.Begin? && db'.answers[i].tx == e.t)
  {
    var db' := Apply(cfg, db, e);
    NewAnswers(cfg, db, e);
    forall i | 0 <= i < |db'.answers| ensures AnswerOfFinished(db', db'.answers[i]) {
      if i < |db.answers| {
        assert AnswerOfFinished(db, db.answers[i]);
      }
    }
  }

  /** The answers given after a point are to calls that were not over at that point: the order of
      the answers respects the order of calls that do not overlap, and no call is answered twice. */
  lemma {:induction false} AnswersFollowRealTime(cfg: Config, db: Db, run: seq<Event>)
    requires AnsweredWhenFinished(db) && Legal(cfg, db, run)
    ensures var db' := After(cfg, db, run);
            && AnsweredWhenFinished(db') && db.answers <= db'.answers && |db.txs| <= |db'.txs|
            && (forall i :: |db.answers| <= i < |db'.answers| ==>
                  var t := db'.answers[i].tx; t < |db.txs| ==> !Finished(db.txs[t]))
            && (forall u :: 0 <= u < |db.txs| && Finished(db.txs[u]) ==> db'.txs[u] == db.txs[u])
    decreases |run|
  {
    if run != [] {
      var next := Apply(cfg, db, run[0]);
      AnsweredWhenFinishedStep(cfg, db, run[0]);
      AnswersFollowRealTime(cfg, next, run[1..]);
      assert forall u :: 0 <= u < |db.txs| && Finished(db.txs[u]) ==> next.txs[u] == db.txs[u];
      var db' := After(cfg, db, run);
      forall i | |db.answers| <= i < |db'.answers| && db'.answers[i].tx < |db.txs|
        ensures !Finished(db.txs[db'.answers[i].tx])
      {
        if i < |next.answers| {
          assert db'.answers[i] == next.answers[i];
        }
      }
    }
  }

  /** A call that got through: its transaction committed, or found its key committed. */
  predicate GotThrough(tx: Tx) {
    tx.job.Execute? && (tx.stage.Committed? || tx.stage.Replayed?)
  }

  ghost predicate HasAnswer(db: Db, u: nat) {
    exists i :: 0 <= i < |db.answers| && db.answers[i].tx == u
  }

  ghost predicate OneAnswerEach(db: Db) {
    && (forall u :: 0 <= u < |db.txs| && GotThrough(db.txs[u]) ==> HasAnswer(db, u))
    && (forall i, j :: 0 <= i < j < |db.answers| ==> db.answers[i].tx != db.answers[j].tx)
  }

  /** A step answers the call it lets through, and no other. */
  lemma StepAnswers(cfg: Config, db: Db, e: Event)
    requires Enabled(db, e) && !e.Begin?
    ensures var db' := Apply(cfg, db, e);
            && !Finished(db.txs[e.t])
            && if GotThrough(db'.txs[e.t])
               then
                 && |db'.answers| == |db.answers| + 1 && db.answers <= db'.answers
                 && db'.answers[|db.answers|].tx == e.t
               else db'.answers == db.answers
  {
  }

  lemma OneAnswerEachStep(cfg: Config, db: Db, e: Event)
    requires AnsweredWhenFinished(db) && OneAnswerEach(db) && Enabled(db, e)
    ensures OneAnswerEach(Apply(cfg, db, e))
  {
    var db' := Apply(cfg, db, e);
    if !e.Begin? {
      StepAnswers(cfg, db, e);
      forall i | 0 <= i < |db.answers| ensures db.answers[i].tx != e.t {
        assert AnswerOfFinished(db, db.answers[i]);
      }
    }
    forall u: nat | u < |db'.txs| && GotThrough(db'.txs[u]) ensures HasAnswer(db', u) {
      OneTxMoves(cfg, db, e, u);
      if e.Begin? || u != e.t {
        assert HasAnswer(db, u);
        var i :| 0 <= i < |db.answers| && db.answers[i].tx == u;
        assert db'.answers[i].tx == u;
      } else {
        assert db'.answers[|db.answers|].tx == u;
      }
    }
  }

  lemma {:induction false} OneAnswerEachAlways(cfg: Config, db: Db, run: seq<Event>)
    requires AnsweredWhenFinished(db) && OneAnswerEach(db) && Legal(cfg, db, run)
    ensures OneAnswerEach(After(cfg, db, run))
    decreases |run|
  {
    if run != [] {
      AnsweredWhenFinishedStep(cfg, db, run[0]);
      OneAnswerEachStep(cfg, db, run[0]);
      OneAnswerEachAlways(cfg, Apply(cfg, db, run[0]), run[1..]);
    }
  }

  /** In every reachable state the answers are exactly one for each execution that committed or was
      replayed. */
  lemma EveryCallThatGotThroughIsAnsweredOnce(cfg: Config, run: seq<Event>)
    requires Legal(cfg, INIT, run)
    ensures var db := After(cfg, INIT, run); OneAnswerEach(db) && AnsweredWhenFinished(db)
  {
    OneAnswerEachAlways(cfg, INIT, run);
    AnswersFollowRealTime(cfg, INIT, run);
  }

  // ---------- every replay returns what was first returned ----------

  lemma {:induction false} SequentialRemembers(answers: seq<Answer>, i: nat)
    requires AnswersAsSequential(answers) && i < |answers|
    ensures var r := Sequential(answers).results;
            && answers[i].req.key in r
            && r[answers[i].req.key] == answers[i].response.(replay := false)
    decreases |answers|
  {
    var front, last := answers[..|answers| - 1], answers[|answers| - 1];
    SequentialIsFirst(front);
    if i < |front| {
      assert front[i] == answers[i];
      SequentialRemembers(front, i);
    }
  }

  lemma {:induction false} SequentialIsFirst(answers: seq<Answer>)
    ensures forall key :: key in Sequential(answers).results ==> !Sequential(answers).results[key].replay
    ensures forall key :: key in Sequential(answers).results ==>
              exists i :: 0 <= i < |answers| && answers[i].req.key == key
  {
    if answers != [] {
      var front := answers[..|answers| - 1];
      SequentialIsFirst(front);
      forall key | key in Sequential(answers).results
        ensures exists i :: 0 <= i < |answers| && answers[i].req.key == key
      {
        if key in Sequential(front).results {
          var i :| 0 <= i < |front| && front[i].req.key == key;
          assert answers[i].req.key == key;
        } else {
          assert answers[|answers| - 1].req.key == key;
        }
      }
    }
  }

  lemma {:induction false} SequentialPrefix(answers: seq<Answer>, n: nat)
    requires AnswersAsSequential(answers) && n <= |answers|
    ensures AnswersAsSequential(answers[..n])
    decreases |answers|
  {
    if n < |answers| {
      assert answers[..|answers| - 1][..n] == answers[..n];
      SequentialPrefix(answers[..|answers| - 1], n);
    } else {
      assert answers[..n] == answers;
    }
  }

  /** The j-th answer is a replay exactly when its key was answered before, and then it gives the
      reference and the action of the first answer. */
  ghost predicate RepeatsTheFirst(answers: seq<Answer>, j: nat)
    requires j < |answers|
  {
    && (answers[j].response.replay <==> exists i :: 0 <= i < j && answers[i].req.key == answers[j].req.key)
    && (forall i :: 0 <= i < j && answers[i].req.key == answers[j].req.key ==>
          answers[j].response == answers[i].response.(replay := true))
  }

  lemma LastRepeatsTheFirst(front: seq<Answer>, last: Answer)
    requires AnswersAsSequential(front + [last])
    ensures RepeatsTheFirst(front + [last], |front|)
  {
    var all := front + [last];
    SequentialExtend(front, last);
    SequentialIsFirst(front);
    forall i | 0 <= i < |front| && all[i].req.key == last.req.key
      ensures last.response == all[i].response.(replay := true)
    {
      SequentialRemembers(front, i);
    }
    if last.response.replay {
      var i :| 0 <= i < |front| && front[i].req.key == last.req.key;
      assert all[i].req.key == last.req.key;
    }
  }

  lemma PrefixRepeatsTheFirst(answers: seq<Answer>, j: nat)
    requires j < |answers| && RepeatsTheFirst(answers[..j + 1], j)
    ensures RepeatsTheFirst(answers, j)
  {
    var front := answers[..j + 1];
    assert forall i :: 0 <= i <= j ==> front[i] == answers[i];
    if answers[j].response.replay {
      var i :| 0 <= i < j && front[i].req.key == front[j].req.key;
      assert answers[i].req.key == answers[j].req.key;
    }
    forall i | 0 <= i < j && answers[i].req.key == answers[j].req.key
      ensures answers[j].response == answers[i].response.(replay := true)
    {
      assert front[i].req.key == front[j].req.key;
    }
  }

  /** Every replay returns exactly what was first returned for its key. */
  lemma ReplayReturnsTheFirstAnswer(cfg: Config, run: seq<Event>, j: nat)
    requires Legal(cfg, INIT, run) && j < |After(cfg, INIT, run).answers|
    ensures RepeatsTheFirst(After(cfg, INIT, run).answers, j)
  {
    ReachableAnswers(cfg, run);
    var answers := After(cfg, INIT, run).answers;
    SequentialPrefix(answers, j + 1);
    assert answers[..j + 1] == answers[..j] + [answers[j]];
    LastRepeatsTheFirst(answers[..j], answers[j]);
    PrefixRepeatsTheFirst(answers, j);
  }

  // ---------- the chain ----------

  /** In every reachable state the service's own verification says that the chain is intact, and
      sequence order is commit order, whatever gaps the aborted transactions left. */
  lemma ChainAlwaysVerifies(cfg: Config, run: seq<Event>)
    requires Legal(cfg, INIT, run)
    ensures var audit := After(cfg, INIT, run).tables.audit;
            && InSeqOrder(audit) == audit
            && Intact(cfg.hashing, Entries(InSeqOrder(audit)))
            && (forall i, j :: 0 <= i < j < |audit| ==> audit[i].seqNo < audit[j].seqNo)
  {
    Reachable(cfg, run);
    SeqOrderIsCommitOrder(After(cfg, INIT, run).tables.audit);
  }

  /** PgAuditLedger.verify over the rows of the table. */
  method VerifyTable(cfg: Config, rows: seq<AuditRow>) returns (ok: bool)
    ensures ok <==> Intact(cfg.hashing, Entries(InSeqOrder(rows)))
  {
    ok := VerifyChain(cfg.hashing, Entries(InSeqOrder(rows)));
  }

  /** Two reachable audit tables with the same head hash hold the same records. */
  lemma SameHeadSameLedger(cfg: Config, run: seq<Event>, run': seq<Event>)
    requires Legal(cfg, INIT, run) && Legal(cfg, INIT, run')
    requires IdealOn(cfg.hashing.sha, InputsOf(cfg.hashing, Entries(After(cfg, INIT, run).tables.audit))
                                      + InputsOf(cfg.hashing, Entries(After(cfg, INIT, run').tables.audit)))
    requires PlainTimestamps(Entries(After(cfg, INIT, run).tables.audit))
    requires PlainTimestamps(Entries(After(cfg, INIT, run').tables.audit))
    requires Head(Entries(After(cfg, INIT, run).tables.audit)) == Head(Entries(After(cfg, INIT, run').tables.audit))
    ensures SameRecords(cfg.hashing, Entries(After(cfg, INIT, run).tables.audit),
                        Entries(After(cfg, INIT, run').tables.audit))
  {
    Reachable(cfg, run);
    Reachable(cfg, run');
    HeadCommitsToHistory(cfg.hashing, Entries(After(cfg, INIT, run).tables.audit),
                         Entries(After(cfg, INIT, run').tables.audit));
  }

  // ---------- rows and audit entries ----------

  lemma ReachableRows(cfg: Config, run: seq<Event>)
    requires Legal(cfg, INIT, run)
    ensures RowsOk(After(cfg, INIT, run)) && BooksOk(cfg, After(cfg, INIT, run).tables)
  {
    Reachable(cfg, run);
  }

  ghost predicate EffectsHaveActions(cfg: Config, tables: Tables) {
    forall i :: 0 <= i < |tables.effects| ==> HasAction(cfg, tables.actions, tables.effects[i])
  }

  lemma ExplainedEffectsHaveActions(cfg: Config, tables: Tables)
    requires BooksOk(cfg, tables)
    ensures EffectsHaveActions(cfg, tables)
  {
    var results := OfEvent(tables.audit, ExecutionResult);
    assert forall j :: 0 <= j < |tables.actions| ==> RecordsAction(results[j], tables.actions[j]);
    forall i: nat | i < |tables.effects| ensures HasAction(cfg, tables.actions, tables.effects[i]) {
      var j := EveryEffectHasItsAction(cfg, tables.actions, tables.effects, i);
    }
  }

  /** Action rows, verdict rows and consent rows match the audit entries of their kind one to one
      and in order; every action row has succeeded under a persisted verdict; of every action the
      domain rows are all there or none is; every domain row is the effect of an action row. */
  lemma RowsAndEntriesCorrespond(cfg: Config, run: seq<Event>)
    requires Legal(cfg, INIT, run)
    ensures var tables := After(cfg, INIT, run).tables;
            && ActionsRecorded(tables) && VerdictsRecorded(tables) && ConsentsRecorded(tables)
            && (forall i :: 0 <= i < |tables.actions| ==>
                  && tables.actions[i].status == Succeeded
                  && VerdictExists(tables.verdicts, tables.actions[i].req.verdictId))
            && Explains(cfg, tables.actions, tables.effects) && EffectsHaveActions(cfg, tables)
  {
    ReachableRows(cfg, run);
    var db := After(cfg, INIT, run);
    assert forall i :: 0 <= i < |db.tables.actions| ==> RowOk(db, db.tables.actions[i]);
    ExplainedEffectsHaveActions(cfg, db.tables);
  }

  /** The effects of an action whose savepoint was released are all in the domain tables, in one piece. */
  ghost predicate EffectsAreThere(cfg: Config, tables: Tables, row: ActionRow) {
    exists lo: nat, hi: nat :: lo <= hi <= |tables.effects| && IsProjectionOf(cfg, row, tables.effects[lo..hi])
  }

  /** In every reachable state each committed action whose projection succeeded has its effects. */
  lemma ProjectedActionsHaveTheirEffects(cfg: Config, run: seq<Event>, i: nat)
    requires Legal(cfg, INIT, run) && i < |After(cfg, INIT, run).tables.actions|
    ensures var db := After(cfg, INIT, run);
            var row := db.tables.actions[i];
            && row.id < |db.txs| && db.txs[row.id].job == Execute(row.req) && db.txs[row.id].stage.Committed?
            && (db.txs[row.id].projected ==> EffectsAreThere(cfg, db.tables, row))
  {
    Reachable(cfg, run);
    var db := After(cfg, INIT, run);
    var row := db.tables.actions[i];
    assert RowOk(db, row);
    if db.txs[row.id].projected {
      var lo, hi := RowEffectsAreThere(cfg, db.txs, db.tables.actions, i);
      ProjectionIsComplete(cfg, row);
      assert IsProjectionOf(cfg, row, db.tables.effects[lo..hi]);
    }
  }

  /** Whether the projection succeeded is settled by the projection and by nothing after it. */
  lemma {:induction false} ProjectionIsSettled(cfg: Config, db: Db, t: nat, ok: bool, rest: seq<Event>)
    requires Enabled(db, Project(t, ok)) && Legal(cfg, Apply(cfg, db, Project(t, ok)), rest)
    ensures t < |After(cfg, Apply(cfg, db, Project(t, ok)), rest).txs|
    ensures After(cfg, Apply(cfg, db, Project(t, ok)), rest).txs[t].projected == ok
  {
    SettledStays(cfg, Apply(cfg, db, Project(t, ok)), t, rest);
  }

  lemma {:induction false} SettledStays(cfg: Config, db: Db, t: nat, rest: seq<Event>)
    requires Legal(cfg, db, rest) && t < |db.txs| && (db.txs[t].stage.Projected? || Finished(db.txs[t]))
    ensures t < |After(cfg, db, rest).txs| && After(cfg, db, rest).txs[t].projected == db.txs[t].projected
    decreases |rest|
  {
    if rest != [] {
      var next := Apply(cfg, db, rest[0]);
      SettledStep(cfg, db, t, rest[0]);
      SettledStays(cfg, next, t, rest[1..]);
    }
  }

  lemma SettledStep(cfg: Config, db: Db, t: nat, e: Event)
    requires Enabled(db, e) && t < |db.txs| && (db.txs[t].stage.Projected? || Finished(db.txs[t]))
    ensures var after := Apply(cfg, db, e);
            && t < |after.txs| && (after.txs[t].stage.Projected? || Finished(after.txs[t]))
            && after.txs[t].projected == db.txs[t].projected
  {
  }
}
