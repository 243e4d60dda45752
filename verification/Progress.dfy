/** How often an action is dispatched, and that the transactions never wait for each other forever. */
module Progress {
  import opened Domain
  import opened Store
  import opened StoreInvariant
  import opened Linearizability
  import opened LedgerTheorems

  ghost function Sum(txs: seq<Tx>, weight: Tx -> nat): nat {
    if txs == [] then 0 else Sum(txs[..|txs| - 1], weight) + weight(txs[|txs| - 1])
  }

  lemma SumExtend(txs: seq<Tx>, tx: Tx, weight: Tx -> nat)
    ensures Sum(txs + [tx], weight) == Sum(txs, weight) + weight(tx)
  {
    assert (txs + [tx])[..|txs|] == txs;
  }

  lemma {:induction false} SumUpdate(txs: seq<Tx>, t: nat, tx: Tx, weight: Tx -> nat)
    requires t < |txs|
    ensures Sum(txs[t := tx], weight) + weight(txs[t]) == Sum(txs, weight) + weight(tx)
  {
    var n := |txs| - 1;
    if t == n {
      assert txs[t := tx][..n] == txs[..n];
    } else {
      assert txs[t := tx][..n] == txs[..n][t := tx];
      SumUpdate(txs[..n], t, tx, weight);
    }
  }

  lemma {:induction false} SumAdds(txs: seq<Tx>, a: Tx -> nat, b: Tx -> nat, c: Tx -> nat)
    requires forall tx :: a(tx) == b(tx) + c(tx)
    ensures Sum(txs, a) == Sum(txs, b) + Sum(txs, c)
  {
    if txs != [] {
      SumAdds(txs[..|txs| - 1], a, b, c);
    }
  }

  /** At most one transaction counts: the sum says whether there is one. */
  lemma {:induction false} SumOfAtMostOne(txs: seq<Tx>, weight: Tx -> nat)
    requires forall tx :: weight(tx) <= 1
    requires forall u, v :: 0 <= u < v < |txs| ==> weight(txs[u]) == 0 || weight(txs[v]) == 0
    ensures Sum(txs, weight) == if exists u :: 0 <= u < |txs| && weight(txs[u]) == 1 then 1 else 0
  {
    if txs != [] {
      var front := txs[..|txs| - 1];
      SumOfAtMostOne(front, weight);
      if u :| 0 <= u < |front| && weight(front[u]) == 1 {
        assert weight(txs[u]) == 1;
      } else {
        assert forall u :: 0 <= u < |front| ==> weight(txs[u]) == weight(front[u]) == 0;
      }
    }
  }

  // ---------- the dispatch bound ----------

  predicate DispatchedFor(tx: Tx, key: Key) {
    tx.dispatched && tx.job.Execute? && tx.job.req.key == key
  }

  ghost function Dispatched(key: Key): Tx -> nat {
    tx => if DispatchedFor(tx, key) then 1 else 0
  }

  ghost function Wasted(key: Key): Tx -> nat {
    tx => if DispatchedFor(tx, key) && tx.stage.Aborted? then 1 else 0
  }

  ghost function Kept(key: Key): Tx -> nat {
    tx => if DispatchedFor(tx, key) && !tx.stage.Aborted? then 1 else 0
  }

  ghost predicate DispatchesOk(db: Db) {
    forall key :: multiset(db.dispatches)[key] == Sum(db.txs, Dispatched(key))
  }

  lemma TxsAreUpdated(cfg: Config, db: Db, e: Event)
    requires Enabled(db, e) && !e.Begin?
    ensures e.t < |Apply(cfg, db, e).txs| && Apply(cfg, db, e).txs == db.txs[e.t := Apply(cfg, db, e).txs[e.t]]
  {
  }

  /** A step counts one dispatch of a key exactly when it marks its transaction as dispatched for it. */
  lemma DispatchIsMarked(cfg: Config, db: Db, e: Event, key: Key)
    requires Enabled(db, e) && !e.Begin? && TxOk(cfg, db.txs[e.t], e.t)
    ensures var db' := Apply(cfg, db, e);
            multiset(db'.dispatches)[key] + Dispatched(key)(db.txs[e.t]) ==
            multiset(db.dispatches)[key] + Dispatched(key)(db'.txs[e.t])
  {
  }

  lemma DispatchesOkStep(cfg: Config, db: Db, e: Event)
    requires TxsOk(cfg, db) && DispatchesOk(db) && Enabled(db, e)
    ensures DispatchesOk(Apply(cfg, db, e))
  {
    var db' := Apply(cfg, db, e);
    forall key ensures multiset(db'.dispatches)[key] == Sum(db'.txs, Dispatched(key)) {
      if e.Begin? {
        SumExtend(db.txs, Opened(e.job), Dispatched(key));
      } else {
        assert TxOk(cfg, db.txs[e.t], e.t);
        TxsAreUpdated(cfg, db, e);
        DispatchIsMarked(cfg, db, e, key);
        SumUpdate(db.txs, e.t, db'.txs[e.t], Dispatched(key));
      }
    }
  }

  lemma {:induction false} DispatchesOkAlways(cfg: Config, db: Db, run: seq<Event>)
    requires Inv(cfg, db) && DispatchesOk(db) && Legal(cfg, db, run)
    ensures DispatchesOk(After(cfg, db, run))
    decreases |run|
  {
    if run != [] {
      InvStep(cfg, db, run[0]);
      DispatchesOkStep(cfg, db, run[0]);
      DispatchesOkAlways(cfg, Apply(cfg, db, run[0]), run[1..]);
    }
  }

  /** The one dispatch of the key that counts: its row is committed, or its transaction is on the way. */
  ghost predicate Settling(db: Db, key: Key) {
    || !Absent(db.tables.actions, key)
    || exists u :: 0 <= u < |db.txs| && HoldsKey(db.txs[u], key) && db.txs[u].dispatched
  }

  lemma CommittedHasRow(db: Db, u: nat) returns (i: nat)
    requires RowsOk(db) && u < |db.txs| && db.txs[u].stage.Committed? && db.txs[u].job.Execute?
    ensures i < |db.tables.actions| && db.tables.actions[i].id == u
    ensures db.tables.actions[i].req == db.txs[u].job.req
  {
    assert HasRow(db, u);
    i :| 0 <= i < |db.tables.actions| && db.tables.actions[i].id == u;
    assert RowOk(db, db.tables.actions[i]);
  }

  lemma KeptIsHeldOrCommitted(cfg: Config, db: Db, key: Key, u: nat)
    requires TxsOk(cfg, db) && u < |db.txs| && Kept(key)(db.txs[u]) == 1
    ensures db.txs[u].stage.Committed? || (HoldsKey(db.txs[u], key) && Holds(db.txs[u]))
  {
    assert TxOk(cfg, db.txs[u], u);
  }

  lemma KeptSettles(cfg: Config, db: Db, key: Key, u: nat)
    requires TxsOk(cfg, db) && RowsOk(db) && u < |db.txs| && Kept(key)(db.txs[u]) == 1
    ensures Settling(db, key)
  {
    KeptIsHeldOrCommitted(cfg, db, key, u);
    if db.txs[u].stage.Committed? {
      var i := CommittedHasRow(db, u);
    }
  }

  lemma SettlingIsKept(cfg: Config, db: Db, key: Key)
    requires TxsOk(cfg, db) && RowsOk(db) && Settling(db, key)
    ensures exists u :: 0 <= u < |db.txs| && Kept(key)(db.txs[u]) == 1
  {
    if i :| 0 <= i < |db.tables.actions| && db.tables.actions[i].req.key == key {
      var u := db.tables.actions[i].id;
      assert RowOk(db, db.tables.actions[i]);
      assert TxOk(cfg, db.txs[u], u);
      assert Kept(key)(db.txs[u]) == 1;
    } else {
      var u :| 0 <= u < |db.txs| && HoldsKey(db.txs[u], key) && db.txs[u].dispatched;
      assert Kept(key)(db.txs[u]) == 1;
    }
  }

  lemma KeptAtMostOnce(cfg: Config, db: Db, key: Key, u: nat, v: nat)
    requires TxsOk(cfg, db) && RowsOk(db) && KeysOk(db) && u < |db.txs| && v < |db.txs|
    requires Kept(key)(db.txs[u]) == 1 && Kept(key)(db.txs[v]) == 1
    ensures u == v
  {
    KeptIsHeldOrCommitted(cfg, db, key, u);
    KeptIsHeldOrCommitted(cfg, db, key, v);
    if db.txs[u].stage.Committed? {
      var i := CommittedHasRow(db, u);
      if db.txs[v].stage.Committed? {
        var j := CommittedHasRow(db, v);
      }
    } else if db.txs[v].stage.Committed? {
      var j := CommittedHasRow(db, v);
    }
  }

  /** At most once: the dispatches of a key are those of the transactions that were aborted after
      dispatching it, and one more exactly when the action is committed or on its way. */
  lemma DispatchBound(cfg: Config, run: seq<Event>, key: Key)
    requires Legal(cfg, INIT, run)
    ensures var db := After(cfg, INIT, run);
            multiset(db.dispatches)[key] == Sum(db.txs, Wasted(key)) + if Settling(db, key) then 1 else 0
  {
    InvInit(cfg);
    Reachable(cfg, run);
    DispatchesOkAlways(cfg, INIT, run);
    var db := After(cfg, INIT, run);
    SumAdds(db.txs, Dispatched(key), Wasted(key), Kept(key));
    forall u, v | 0 <= u < v < |db.txs| ensures Kept(key)(db.txs[u]) == 0 || Kept(key)(db.txs[v]) == 0 {
      if Kept(key)(db.txs[u]) == 1 && Kept(key)(db.txs[v]) == 1 {
        KeptAtMostOnce(cfg, db, key, u, v);
      }
    }
    SumOfAtMostOne(db.txs, Kept(key));
    if Settling(db, key) {
      SettlingIsKept(cfg, db, key);
    }
    if u :| 0 <= u < |db.txs| && Kept(key)(db.txs[u]) == 1 {
      KeptSettles(cfg, db, key, u);
    }
  }

  lemma CommittedIsNotDispatched(cfg: Config, db: Db, e: Event, key: Key)
    requires KeysOk(db) && Enabled(db, e) && !Absent(db.tables.actions, key)
    ensures multiset(Apply(cfg, db, e).dispatches)[key] == multiset(db.dispatches)[key]
    ensures !Absent(Apply(cfg, db, e).tables.actions, key)
  {
    if e.Dispatch? {
      assert Holds(db.txs[e.t]);
    }
    var i :| 0 <= i < |db.tables.actions| && db.tables.actions[i].req.key == key;
    assert Apply(cfg, db, e).tables.actions[i] == db.tables.actions[i];
  }

  /** Once a key is committed, no continuation of the run dispatches it again. */
  lemma {:induction false} CommittedIsNeverDispatchedAgain(cfg: Config, db: Db, run: seq<Event>, key: Key)
    requires Inv(cfg, db) && Legal(cfg, db, run) && !Absent(db.tables.actions, key)
    ensures var db' := After(cfg, db, run);
            && multiset(db'.dispatches)[key] == multiset(db.dispatches)[key]
            && !Absent(db'.tables.actions, key)
    decreases |run|
  {
    if run != [] {
      var next := Apply(cfg, db, run[0]);
      InvStep(cfg, db, run[0]);
      CommittedIsNotDispatched(cfg, db, run[0], key);
      CommittedIsNeverDispatchedAgain(cfg, next, run[1..], key);
    }
  }

  // ---------- and no fewer: aborts can waste any number of dispatches ----------

  lemma {:induction false} RunsJoin(cfg: Config, db: Db, a: seq<Event>, b: seq<Event>)
    requires Legal(cfg, db, a) && Legal(cfg, After(cfg, db, a), b)
    ensures Legal(cfg, db, a + b) && After(cfg, db, a + b) == After(cfg, After(cfg, db, a), b)
    decreases |a|
  {
    if a == [] {
      assert a + b == b;
    } else {
      assert (a + b)[1..] == a[1..] + b && (a + b)[0] == a[0];
      RunsJoin(cfg, Apply(cfg, db, a[0]), a[1..], b);
    }
  }

  lemma OneStepRun(cfg: Config, db: Db, e: Event)
    requires Enabled(db, e)
    ensures Legal(cfg, db, [e]) && After(cfg, db, [e]) == Apply(cfg, db, e)
  {
    assert [e][1..] == [];
    assert After(cfg, Apply(cfg, db, e), []) == Apply(cfg, db, e);
  }

  /** The action can be tried: its verdict is persisted and its key is neither committed nor held. */
  ghost predicate CanTry(db: Db, req: Request) {
    && VerdictExists(db.tables.verdicts, req.verdictId)
    && ByKey(db.tables.actions, req.key).None? && !KeyIsHeld(db, req.key)
  }

  /** One call whose transaction is lost after the adapter has answered. */
  lemma LostAttempt(cfg: Config, db: Db, req: Request) returns (run: seq<Event>)
    requires CanTry(db, req)
    ensures Legal(cfg, db, run) && CanTry(After(cfg, db, run), req)
    ensures After(cfg, db, run).dispatches == db.dispatches + [req.key]
  {
    var t := |db.txs|;
    var a := Apply(cfg, db, Begin(Execute(req)));
    var b := Apply(cfg, a, Lookup(t));
    assert forall u :: 0 <= u < t ==> b.txs[u] == db.txs[u];
    assert !KeyIsHeld(b, req.key);
    var c := Apply(cfg, b, Flush(t));
    var d := Apply(cfg, c, Dispatch(t, ""));
    var e := Apply(cfg, d, Abort(t));
    assert forall u :: 0 <= u < t ==> e.txs[u] == db.txs[u];
    assert !KeyIsHeld(e, req.key);
    run := [Begin(Execute(req))] + ([Lookup(t)] + ([Flush(t)] + ([Dispatch(t, "")] + [Abort(t)])));
    OneStepRun(cfg, d, Abort(t));
    OneStepRun(cfg, c, Dispatch(t, ""));
    RunsJoin(cfg, c, [Dispatch(t, "")], [Abort(t)]);
    OneStepRun(cfg, b, Flush(t));
    RunsJoin(cfg, b, [Flush(t)], [Dispatch(t, "")] + [Abort(t)]);
    OneStepRun(cfg, a, Lookup(t));
    RunsJoin(cfg, a, [Lookup(t)], [Flush(t)] + ([Dispatch(t, "")] + [Abort(t)]));
    OneStepRun(cfg, db, Begin(Execute(req)));
    RunsJoin(cfg, db, [Begin(Execute(req))], [Lookup(t)] + ([Flush(t)] + ([Dispatch(t, "")] + [Abort(t)])));
  }

  /** A dispatch comes before its commit, so no number bounds the dispatches of a key: once an action
      can be tried it can be dispatched any number of times and still be uncommitted. */
  lemma {:induction false} DispatchesAreUnbounded(cfg: Config, db: Db, req: Request, n: nat) returns (run: seq<Event>)
    requires CanTry(db, req)
    ensures Legal(cfg, db, run) && CanTry(After(cfg, db, run), req)
    ensures multiset(After(cfg, db, run).dispatches)[req.key] == multiset(db.dispatches)[req.key] + n
    decreases n
  {
    if n == 0 {
      run := [];
    } else {
      var first := LostAttempt(cfg, db, req);
      var rest := DispatchesAreUnbounded(cfg, After(cfg, db, first), req, n - 1);
      RunsJoin(cfg, db, first, rest);
      run := first + rest;
    }
  }

  // ---------- no deadlock, no endless run ----------

  /** A step of the service code itself: not a new call, and not a failure. */
  predicate Progresses(e: Event) {
    !e.Begin? && !e.Abort? && !e.DispatchFails?
  }

  function NextStep(tx: Tx, t: nat): Event
    requires !Finished(tx)
  {
    match tx.stage
    case Looking => Lookup(t)
    case Inserting => Flush(t)
    case Rechecking => Recheck(t)
    case Reserved => Dispatch(t, "")
    case Written => Lock(t)
    case Locked => ReadHead(t)
    case HeadRead => Append(t, "")
    case Appended => if tx.job.Execute? then Project(t, true) else Commit(t)
    case _ => Commit(t)
  }

  /** While some transaction is unfinished, some transaction can take its next step: who waits for a
      key waits for one that holds it, who waits for the audit lock waits for one that holds it, and
      the lock holder waits for nothing. */
  lemma SomeStepIsEnabled(cfg: Config, db: Db, t: nat) returns (e: Event)
    requires TxsOk(cfg, db) && LockOk(db) && t < |db.txs| && !Finished(db.txs[t])
    ensures Progresses(e) && Enabled(db, e)
  {
    var u := t;
    assert TxOk(cfg, db.txs[t], t);
    if db.lock.Some? {
      u := db.lock.value;
    } else if db.txs[t].stage.Inserting? && db.txs[t].job.Execute? && KeyIsHeld(db, db.txs[t].job.req.key) {
      u :| 0 <= u < |db.txs| && HoldsKey(db.txs[u], db.txs[t].job.req.key);
    }
    assert TxOk(cfg, db.txs[u], u);
    e := NextStep(db.txs[u], u);
  }

  function StepsLeft(tx: Tx): nat {
    match tx.stage
    case Looking => 9
    case Inserting => 8
    case Reserved => 7
    case Written => 6
    case Locked => 5
    case HeadRead => 4
    case Appended => 3
    case Projected => 2
    case Rechecking => 1
    case _ => 0
  }

  lemma MovedTxHasLessLeft(cfg: Config, db: Db, e: Event)
    requires Enabled(db, e) && !e.Begin?
    ensures StepsLeft(Apply(cfg, db, e).txs[e.t]) < StepsLeft(db.txs[e.t])
  {
  }

  /** Every step of the code or failure of a call brings the work left down. */
  lemma StepDecreases(cfg: Config, db: Db, e: Event)
    requires Enabled(db, e) && !e.Begin?
    ensures Sum(Apply(cfg, db, e).txs, StepsLeft) < Sum(db.txs, StepsLeft)
  {
    TxsAreUpdated(cfg, db, e);
    MovedTxHasLessLeft(cfg, db, e);
    SumUpdate(db.txs, e.t, Apply(cfg, db, e).txs[e.t], StepsLeft);
  }

  /** A run without new calls is no longer than the work left. */
  lemma {:induction false} RunsAreBounded(cfg: Config, db: Db, run: seq<Event>)
    requires Legal(cfg, db, run) && forall i :: 0 <= i < |run| ==> !run[i].Begin?
    ensures |run| <= Sum(db.txs, StepsLeft)
    decreases |run|
  {
    if run != [] {
      StepDecreases(cfg, db, run[0]);
      RunsAreBounded(cfg, Apply(cfg, db, run[0]), run[1..]);
    }
  }

  predicate AllFinished(db: Db) {
    forall u :: 0 <= u < |db.txs| ==> Finished(db.txs[u])
  }

  /** The run ends every transaction by steps of the service code, with no outside failure. */
  ghost predicate Completes(cfg: Config, db: Db, run: seq<Event>) {
    Legal(cfg, db, run) && (forall i :: 0 <= i < |run| ==> Progresses(run[i])) && AllFinished(After(cfg, db, run))
  }

  lemma CompletesCons(cfg: Config, db: Db, e: Event, rest: seq<Event>)
    requires Enabled(db, e) && Progresses(e) && Completes(cfg, Apply(cfg, db, e), rest)
    ensures Completes(cfg, db, [e] + rest)
  {
    assert ([e] + rest)[1..] == rest;
  }

  lemma OneStepOn(cfg: Config, db: Db) returns (e: Event)
    requires Inv(cfg, db) && !AllFinished(db)
    ensures Progresses(e) && Enabled(db, e) && Inv(cfg, Apply(cfg, db, e))
    ensures Sum(Apply(cfg, db, e).txs, StepsLeft) < Sum(db.txs, StepsLeft)
  {
    var t: nat :| t < |db.txs| && !Finished(db.txs[t]);
    e := SomeStepIsEnabled(cfg, db, t);
    InvStep(cfg, db, e);
    StepDecreases(cfg, db, e);
  }

  /** From every reachable state the transactions can all be brought to their end by the steps of the
      service code alone. */
  lemma {:induction false} EveryCallCanFinish(cfg: Config, db: Db) returns (run: seq<Event>)
    requires Inv(cfg, db)
    ensures Completes(cfg, db, run)
    decreases Sum(db.txs, StepsLeft)
  {
    if AllFinished(db) {
      run := [];
    } else {
      var e := OneStepOn(cfg, db);
      var rest := EveryCallCanFinish(cfg, Apply(cfg, db, e));
      CompletesCons(cfg, db, e, rest);
      run := [e] + rest;
    }
  }
}
