/** What every step of the platform keeps. */
module PlatformInvariant {
  import opened Domain
  import opened PolicyEngine
  import opened Store
  import opened StoreInvariant
  import opened Linearizability
  import opened LedgerTheorems
  import opened GuardedAction
  import opened Platform
  import Session

  // ---------- sessions ----------

  /** No two sessions share an id, and no two (session, action) pairs share a key. */
  ghost predicate SessionsOk(w: World) {
    && (forall s, r :: 0 <= s < r < |w.sessions| ==> w.sessions[s].id != w.sessions[r].id)
    && (forall s, r, a, b ::
          (&& 0 <= s < |w.sessions| && 0 <= r < |w.sessions| && a in w.sessions[s].keys && b in w.sessions[r].keys
           && w.sessions[s].keys[a] == w.sessions[r].keys[b])
          ==> s == r && a == b)
  }

  /** What every state of a session keeps: an unresolved caller is not verified, and the counter of
      negative turns is the streak of the history. */
  ghost predicate WellKept(s: Session.State) {
    Session.Resolved(s) && Session.CountsStreak(s)
  }

  ghost predicate AllWellKept(w: World) {
    && (forall s :: 0 <= s < |w.sessions| ==> WellKept(w.sessions[s]))
    && (forall c :: 0 <= c < |w.calls| ==> WellKept(w.calls[c].seen))
  }

  lemma WellKeptStep(s: Session.State, e: Session.Event)
    requires WellKept(s)
    ensures WellKept(Session.Step(s, e))
  {
    Session.ResolvedStep(s, e);
    Session.CountsStreakStep(s, e);
  }

  /** A session only ever grows: identity and keys stay, clarification attempts do not go back. */
  ghost predicate Grown(s: Session.State, s': Session.State) {
    && s'.id == s.id && s'.customer == s.customer
    && s.clarificationAttempts <= s'.clarificationAttempts
    && (forall a :: a in s.keys ==> a in s'.keys && s'.keys[a] == s.keys[a])
  }

  ghost predicate SessionsGrown(w: World, w': World) {
    |w.sessions| <= |w'.sessions| && forall s :: 0 <= s < |w.sessions| ==> Grown(w.sessions[s], w'.sessions[s])
  }

  lemma SessionsGrownStep(st: Settings, w: World, step: Step)
    requires Can(st, w, step)
    ensures SessionsGrown(w, Do(st, w, step))
  {
    if step.ChangeSession? {
      Session.StepKeeps(w.sessions[step.s], step.change);
    } else if step.ReceiveVerdict? {
      SessionsAfterVerdict(st, w, step.c, step.newKey);
    } else if !step.OpenSession? {
      SessionsStay(st, w, step);
    }
  }

  /** Ids and keys are what matters, so a session may change in any other way. */
  lemma SessionsOkSameKeys(w: World, w': World)
    requires SessionsOk(w) && |w'.sessions| == |w.sessions|
    requires forall s :: 0 <= s < |w.sessions| ==>
               w'.sessions[s].id == w.sessions[s].id && w'.sessions[s].keys == w.sessions[s].keys
    ensures SessionsOk(w')
  {
  }

  lemma SessionsOkOpened(w: World, id: string, customer: Option<Session.Customer>)
    requires SessionsOk(w) && forall s :: 0 <= s < |w.sessions| ==> w.sessions[s].id != id
    ensures SessionsOk(w.(sessions := w.sessions + [Session.NewSession(id, customer)]))
  {
  }

  lemma SessionsOkKeyed(w: World, s: nat, action: Action, key: Key)
    requires SessionsOk(w) && s < |w.sessions| && FreshKey(w, key)
    ensures SessionsOk(w.(sessions := w.sessions[s := Session.WithKey(w.sessions[s], action, key)]))
  {
    var keyed := Session.WithKey(w.sessions[s], action, key);
    assert keyed.id == w.sessions[s].id;
    assert forall b :: b in keyed.keys ==>
      (b in w.sessions[s].keys && keyed.keys[b] == w.sessions[s].keys[b]) || (b == action && keyed.keys[b] == key);
    var sessions := w.sessions[s := keyed];
    forall r, q, a, b | 0 <= r < |sessions| && 0 <= q < |sessions| && a in sessions[r].keys && b in sessions[q].keys
                        && sessions[r].keys[a] == sessions[q].keys[b]
      ensures r == q && a == b
    {
      if sessions[r].keys[a] != key {
        assert a in w.sessions[r].keys && b in w.sessions[q].keys;
      }
    }
  }

  /** Only three kinds of step write a session. */
  lemma SessionsStay(st: Settings, w: World, step: Step)
    requires Can(st, w, step) && !step.OpenSession? && !step.ChangeSession? && !step.ReceiveVerdict?
    ensures Do(st, w, step).sessions == w.sessions
  {
  }

  lemma SessionsAfterVerdict(st: Settings, w: World, c: nat, key: Key)
    requires Can(st, w, ReceiveVerdict(c, key))
    ensures var call, after := w.calls[c], Do(st, w, ReceiveVerdict(c, key)).sessions;
            || after == w.sessions
            || after == w.sessions[call.session := Session.WithKey(w.sessions[call.session], ActionOf(call.tool), key)]
  {
  }

  lemma SessionsOkStep(st: Settings, w: World, step: Step)
    requires SessionsOk(w) && Can(st, w, step)
    ensures SessionsOk(Do(st, w, step))
  {
    var w' := Do(st, w, step);
    if step.ChangeSession? {
      Session.StepKeeps(w.sessions[step.s], step.change);
      SessionsOkSameKeys(w, w');
    } else if step.OpenSession? {
      SessionsOkOpened(w, step.id, step.customer);
    } else if step.ReceiveVerdict? {
      SessionsAfterVerdict(st, w, step.c, step.newKey);
      if w'.sessions != w.sessions {
        SessionsOkKeyed(w, w.calls[step.c].session, ActionOf(w.calls[step.c].tool), step.newKey);
      }
      SessionsOkSameKeys(w.(sessions := w'.sessions), w');
    } else {
      SessionsStay(st, w, step);
      SessionsOkSameKeys(w, w');
    }
  }

  // ---------- verdicts ----------

  ghost predicate IsJudged(st: Settings, row: VerdictRow) {
    row.outbound || (row.snapshot.Some? && row == VerdictRowFor(st.thresholds, row.snapshot.value, row.id))
  }

  ghost predicate VerdictOfTx(db: Db, row: VerdictRow) {
    exists u :: 0 <= u < |db.txs| && db.txs[u].stage.Committed? && db.txs[u].job == Judge(row)
  }

  ghost predicate HasVerdict(db: Db, row: VerdictRow) {
    exists i :: 0 <= i < |db.tables.verdicts| && db.tables.verdicts[i] == row
  }

  /** Verdict ids are unique; every verdict row was computed by the engine and committed by the
      transaction that judged it; every such transaction has left its row. */
  ghost predicate VerdictsOk(st: Settings, db: Db) {
    && (forall u, v :: 0 <= u < v < |db.txs| && db.txs[u].job.Judge? && db.txs[v].job.Judge? ==>
          db.txs[u].job.verdictRow.id != db.txs[v].job.verdictRow.id)
    && (forall u :: 0 <= u < |db.txs| && db.txs[u].job.Judge? ==> IsJudged(st, db.txs[u].job.verdictRow))
    && (forall i :: 0 <= i < |db.tables.verdicts| ==> VerdictOfTx(db, db.tables.verdicts[i]))
    && (forall u :: 0 <= u < |db.txs| && db.txs[u].stage.Committed? && db.txs[u].job.Judge? ==>
          HasVerdict(db, db.txs[u].job.verdictRow))
  }

  lemma VerdictsOkSubmit(st: Settings, db: Db, job: Job)
    requires VerdictsOk(st, db) && FreshVerdictId(db, job) && (job.Judge? ==> IsJudged(st, job.verdictRow))
    ensures VerdictsOk(st, Submit(db, job))
  {
    var db' := Submit(db, job);
    forall i | 0 <= i < |db.tables.verdicts| ensures VerdictOfTx(db', db.tables.verdicts[i]) {
      assert VerdictOfTx(db, db.tables.verdicts[i]);
      var u :| 0 <= u < |db.txs| && db.txs[u].stage.Committed? && db.txs[u].job == Judge(db.tables.verdicts[i]);
      assert db'.txs[u] == db.txs[u];
    }
    forall u | 0 <= u < |db'.txs| && db'.txs[u].stage.Committed? && db'.txs[u].job.Judge?
      ensures HasVerdict(db', db'.txs[u].job.verdictRow)
    {
      assert HasVerdict(db, db.txs[u].job.verdictRow);
    }
  }

  /** A service step changes no job and finishes or keeps every transaction. */
  lemma JobsStay(cfg: Config, db: Db, e: Event)
    requires Enabled(db, e) && !e.Begin?
    ensures var db' := Apply(cfg, db, e);
            && |db'.txs| == |db.txs|
            && (forall u :: 0 <= u < |db.txs| ==> db'.txs[u].job == db.txs[u].job)
            && (forall u :: 0 <= u < |db.txs| && Finished(db.txs[u]) ==> db'.txs[u] == db.txs[u])
            && (!e.Commit? ==> db'.tables == db.tables)
            && (!e.Commit? ==>
                  forall u :: 0 <= u < |db.txs| && db'.txs[u].stage.Committed? ==> db.txs[u].stage.Committed?)
  {
  }

  lemma VerdictsOkService(st: Settings, db: Db, e: Event)
    requires VerdictsOk(st, db) && TxsOk(st.store, db) && Enabled(db, e) && !e.Begin?
    ensures VerdictsOk(st, Apply(st.store, db, e))
  {
    var db' := Apply(st.store, db, e);
    JobsStay(st.store, db, e);
    if e.Commit? {
      assert TxOk(st.store, db.txs[e.t], e.t);
    }
    forall i | 0 <= i < |db'.tables.verdicts| ensures VerdictOfTx(db', db'.tables.verdicts[i]) {
      if i < |db.tables.verdicts| {
        assert db'.tables.verdicts[i] == db.tables.verdicts[i] && VerdictOfTx(db, db.tables.verdicts[i]);
        var u :| 0 <= u < |db.txs| && db.txs[u].stage.Committed? && db.txs[u].job == Judge(db.tables.verdicts[i]);
        assert db'.txs[u] == db.txs[u];
      } else {
        assert db'.txs[e.t].stage.Committed? && db'.txs[e.t].job == Judge(db'.tables.verdicts[i]);
      }
    }
    forall u | 0 <= u < |db'.txs| && db'.txs[u].stage.Committed? && db'.txs[u].job.Judge?
      ensures HasVerdict(db', db'.txs[u].job.verdictRow)
    {
      if db.txs[u].stage.Committed? {
        assert HasVerdict(db, db.txs[u].job.verdictRow);
        var i :| 0 <= i < |db.tables.verdicts| && db.tables.verdicts[i] == db.txs[u].job.verdictRow;
        assert db'.tables.verdicts[i] == db.tables.verdicts[i];
      } else {
        assert db'.tables.verdicts[|db.tables.verdicts|] == db'.txs[u].job.verdictRow;
      }
    }
  }

  // ---------- grants ----------

  /** The persisted AUTHORIZED verdict of exactly this context. */
  ghost predicate AuthorizedFor(st: Settings, db: Db, ctx: PolicyContext, id: Uuid) {
    EvaluateAction(ctx, st.thresholds).verdict.Authorized? && HasVerdict(db, VerdictRowFor(st.thresholds, ctx, id))
  }

  /** The request of a call, in terms of what the session was when the call started. */
  function RequestOf(call: Call, key: Key, id: Uuid): Request {
    var judged := Judged(call.seen, call.tool);
    Request(key, ActionOf(call.tool), call.seen.id, id, judged.customer, judged.subscription, PayloadOf(call.tool))
  }

  lemma RequestCarriesTheSession(call: Call, key: Key, id: Uuid)
    ensures RequestFor(ContextOf(call), ActionOf(call.tool), PayloadOf(call.tool), key, id) == RequestOf(call, key, id)
  {
    SessionFieldsSurvive(call.seen, call.tool, SessionId);
    SessionFieldsSurvive(call.seen, call.tool, CustomerId);
    SessionFieldsSurvive(call.seen, call.tool, SubscriptionId);
  }

  /** The request is the one of call `c`: its session's key for the action, its context, its payload,
      and the verdict that authorized them. */
  ghost predicate Grants(st: Settings, w: World, c: nat, req: Request) {
    && c < |w.calls| && w.calls[c].session < |w.sessions|
    && var call, keys := w.calls[c], w.sessions[w.calls[c].session].keys;
       && ActionOf(call.tool) in keys
       && req == RequestOf(call, keys[ActionOf(call.tool)], req.verdictId)
       && AuthorizedFor(st, w.db, Judged(call.seen, call.tool), req.verdictId)
  }

  ghost predicate Granted(st: Settings, w: World, req: Request) {
    exists c :: Grants(st, w, c, req)
  }

  ghost predicate GrantsOk(st: Settings, w: World) {
    forall u :: 0 <= u < |w.db.txs| && w.db.txs[u].job.Execute? ==> Granted(st, w, w.db.txs[u].job.req)
  }

  ghost predicate SameCalls(w: World, w': World) {
    && |w.calls| <= |w'.calls|
    && forall c :: 0 <= c < |w.calls| ==> w'.calls[c] == w.calls[c].(stage := w'.calls[c].stage)
  }

  ghost predicate VerdictsGrown(db: Db, db': Db) {
    db.tables.verdicts <= db'.tables.verdicts
  }

  lemma WorldGrows(st: Settings, w: World, step: Step)
    requires Can(st, w, step)
    ensures var w' := Do(st, w, step);
            SessionsGrown(w, w') && SameCalls(w, w') && VerdictsGrown(w.db, w'.db)
  {
    SessionsGrownStep(st, w, step);
  }

  lemma AuthorizedStays(st: Settings, db: Db, db': Db, ctx: PolicyContext, id: Uuid)
    requires AuthorizedFor(st, db, ctx, id) && VerdictsGrown(db, db')
    ensures AuthorizedFor(st, db', ctx, id)
  {
    var row := VerdictRowFor(st.thresholds, ctx, id);
    var i :| 0 <= i < |db.tables.verdicts| && db.tables.verdicts[i] == row;
    assert db'.tables.verdicts[i] == row;
  }

  lemma GrantStays(st: Settings, w: World, w': World, c: nat, req: Request)
    requires Grants(st, w, c, req) && SessionsGrown(w, w') && SameCalls(w, w') && VerdictsGrown(w.db, w'.db)
    ensures Grants(st, w', c, req)
  {
    assert Grown(w.sessions[w.calls[c].session], w'.sessions[w.calls[c].session]);
    AuthorizedStays(st, w.db, w'.db, Judged(w.calls[c].seen, w.calls[c].tool), req.verdictId);
  }

  lemma GrantedStays(st: Settings, w: World, step: Step, req: Request)
    requires Can(st, w, step) && Granted(st, w, req)
    ensures Granted(st, Do(st, w, step), req)
  {
    var c :| Grants(st, w, c, req);
    WorldGrows(st, w, step);
    GrantStays(st, w, Do(st, w, step), c, req);
  }

  // ---------- calls ----------

  /** A committed action row for this session and action carries the reference. */
  ghost predicate Delivered(db: Db, session: string, action: Action, reference: string) {
    exists i :: 0 <= i < |db.tables.actions|
      && db.tables.actions[i].req.session == session && db.tables.actions[i].req.action == action
      && db.tables.actions[i].reference == Some(reference)
  }

  /** A committed row carries the reference, and it is the request of this very call. */
  ghost predicate DeliveredOwn(st: Settings, w: World, c: nat, reference: string) {
    exists i :: 0 <= i < |w.db.tables.actions| && IsOwnRow(st, w, c, reference, i)
  }

  ghost predicate IsOwnRow(st: Settings, w: World, c: nat, reference: string, i: nat)
    requires i < |w.db.tables.actions|
  {
    w.db.tables.actions[i].reference == Some(reference) && Grants(st, w, c, w.db.tables.actions[i].req)
  }

  ghost predicate CallOk(st: Settings, w: World, c: nat)
    requires c < |w.calls|
  {
    var call := w.calls[c];
    && call.session < |w.sessions| && Grown(call.seen, w.sessions[call.session])
    && match call.stage
       case Deciding => true
       case Judging(t) =>
         t < |w.db.txs| && w.db.txs[t].job.Judge?
         && var row := w.db.txs[t].job.verdictRow;
            row == VerdictRowFor(st.thresholds, Judged(call.seen, call.tool), row.id)
       case Executing(t) =>
         t < |w.db.txs| && w.db.txs[t].job.Execute? && Grants(st, w, c, w.db.txs[t].job.req)
       case Over(outcome) =>
         outcome.Executed? ==>
           && outcome.action == ActionOf(call.tool)
           && EvaluateAction(Judged(call.seen, call.tool), st.thresholds).verdict.Authorized?
           && Delivered(w.db, call.seen.id, outcome.action, outcome.reference)
           && (!outcome.replay ==> DeliveredOwn(st, w, c, outcome.reference))
  }

  ghost predicate CallsOk(st: Settings, w: World) {
    forall c :: 0 <= c < |w.calls| ==> CallOk(st, w, c)
  }

  lemma SessionsWellKept(st: Settings, w: World, step: Step)
    requires AllWellKept(w) && Can(st, w, step)
    ensures forall s :: 0 <= s < |Do(st, w, step).sessions| ==> WellKept(Do(st, w, step).sessions[s])
  {
    if step.ChangeSession? {
      WellKeptStep(w.sessions[step.s], step.change);
    } else if step.ReceiveVerdict? {
      SessionsAfterVerdict(st, w, step.c, step.newKey);
      var call := w.calls[step.c];
      WellKeptStep(w.sessions[call.session], Session.Keyed(ActionOf(call.tool), step.newKey));
    } else if !step.OpenSession? {
      SessionsStay(st, w, step);
    }
  }

  lemma AllWellKeptStep(st: Settings, w: World, step: Step)
    requires AllWellKept(w) && Can(st, w, step)
    ensures AllWellKept(Do(st, w, step))
  {
    var w' := Do(st, w, step);
    SessionsWellKept(st, w, step);
    WorldGrows(st, w, step);
    forall c | 0 <= c < |w'.calls| ensures WellKept(w'.calls[c].seen) {
      if c < |w.calls| {
        assert w'.calls[c] == w.calls[c].(stage := w'.calls[c].stage);
      } else {
        assert step.CallTool? && w'.calls[c].seen == w.sessions[step.caller];
      }
    }
  }

  ghost predicate WorldOk(st: Settings, w: World) {
    && Inv(st.store, w.db) && AnsweredWhenFinished(w.db) && AllWellKept(w)
    && SessionsOk(w) && VerdictsOk(st, w.db) && GrantsOk(st, w) && CallsOk(st, w)
  }

  /** What one step leaves of the store when it is not a service step: at most one new transaction. */
  lemma StoreOfStep(st: Settings, w: World, step: Step)
    requires Can(st, w, step) && !step.Service?
    ensures var w' := Do(st, w, step);
            w'.db == w.db || exists job :: w'.db == Submit(w.db, job) && FreshVerdictId(w.db, job)
                                           && (job.Judge? ==> IsJudged(st, job.verdictRow))
  {
    var db' := Do(st, w, step).db;
    if db' != w.db {
      var job := db'.txs[|w.db.txs|].job;
      assert db' == Submit(w.db, job);
    }
  }

  lemma StoreOk(st: Settings, w: World, step: Step)
    requires WorldOk(st, w) && Can(st, w, step)
    ensures var w' := Do(st, w, step);
            Inv(st.store, w'.db) && AnsweredWhenFinished(w'.db) && VerdictsOk(st, w'.db)
  {
    var w' := Do(st, w, step);
    if step.Service? {
      InvStep(st.store, w.db, step.e);
      AnsweredWhenFinishedStep(st.store, w.db, step.e);
      VerdictsOkService(st, w.db, step.e);
    } else {
      StoreOfStep(st, w, step);
      if w'.db != w.db {
        var job :| w'.db == Submit(w.db, job) && FreshVerdictId(w.db, job)
                   && (job.Judge? ==> IsJudged(st, job.verdictRow));
        InvStep(st.store, w.db, Begin(job));
        AnsweredWhenFinishedStep(st.store, w.db, Begin(job));
        VerdictsOkSubmit(st, w.db, job);
      }
    }
  }

  /** The call that receives an AUTHORIZED verdict is granted its request. */
  lemma NewGrant(st: Settings, w: World, c: nat, newKey: Key)
    requires Can(st, w, ReceiveVerdict(c, newKey)) && CallOk(st, w, c) && VerdictsOk(st, w.db)
    requires Do(st, w, ReceiveVerdict(c, newKey)).calls[c].stage.Executing?
    ensures var w' := Do(st, w, ReceiveVerdict(c, newKey));
            && w'.calls[c].stage == Executing(|w.db.txs|) && |w'.db.txs| == |w.db.txs| + 1
            && w'.db.txs[|w.db.txs|].job.Execute?
            && Grants(st, w', c, w'.db.txs[|w.db.txs|].job.req)
  {
    var w' := Do(st, w, ReceiveVerdict(c, newKey));
    var call := w.calls[c];
    var row := w.db.txs[call.stage.judge].job.verdictRow;
    assert row.verdict.Authorized?;
    assert HasVerdict(w.db, row);
    AuthorizedStays(st, w.db, w'.db, Judged(call.seen, call.tool), row.id);
    RequestCarriesTheSession(call, w'.sessions[call.session].keys[ActionOf(call.tool)], row.id);
  }

  /** No step changes the job of a transaction or takes an action row back. */
  ghost predicate StoreGrown(db: Db, db': Db) {
    && |db.txs| <= |db'.txs| && (forall u :: 0 <= u < |db.txs| ==> db'.txs[u].job == db.txs[u].job)
    && db.tables.actions <= db'.tables.actions
  }

  lemma StoreGrows(st: Settings, w: World, step: Step)
    requires Can(st, w, step)
    ensures StoreGrown(w.db, Do(st, w, step).db)
  {
    if step.Service? {
      JobsStay(st.store, w.db, step.e);
    }
  }

  /** Only the call that receives its verdict asks for an execution. */
  lemma NewExecutionIsOfACall(st: Settings, w: World, step: Step)
    requires Can(st, w, step) && |Do(st, w, step).db.txs| > |w.db.txs|
    requires Do(st, w, step).db.txs[|w.db.txs|].job.Execute?
    ensures step.ReceiveVerdict? && Do(st, w, step).calls[step.c].stage.Executing?
    ensures |Do(st, w, step).db.txs| == |w.db.txs| + 1
  {
    if step.Service? {
      JobsStay(st.store, w.db, step.e);
    }
  }

  lemma AtMostOneBegins(st: Settings, w: World, step: Step)
    requires Can(st, w, step)
    ensures |Do(st, w, step).db.txs| <= |w.db.txs| + 1
  {
    if step.Service? {
      JobsStay(st.store, w.db, step.e);
    }
  }

  lemma GrantsOkStep(st: Settings, w: World, step: Step)
    requires GrantsOk(st, w) && CallsOk(st, w) && VerdictsOk(st, w.db) && Can(st, w, step)
    ensures GrantsOk(st, Do(st, w, step))
  {
    var w' := Do(st, w, step);
    StoreGrows(st, w, step);
    AtMostOneBegins(st, w, step);
    forall u: nat | u < |w'.db.txs| && w'.db.txs[u].job.Execute? ensures Granted(st, w', w'.db.txs[u].job.req) {
      if u < |w.db.txs| {
        GrantedStays(st, w, step, w.db.txs[u].job.req);
      } else {
        NewExecutionIsOfACall(st, w, step);
        assert CallOk(st, w, step.c);
        NewGrant(st, w, step.c, step.newKey);
      }
    }
  }

  /** A request and a committed row with the same key belong to the same session and action. */
  lemma SameKeySameSession(st: Settings, w: World, c: nat, req: Request, row: ActionRow)
    requires SessionsOk(w) && GrantsOk(st, w) && CallsOk(st, w) && Grants(st, w, c, req)
    requires CommittedBy(w.db, row) && row.req.key == req.key
    ensures row.req.session == w.sessions[w.calls[c].session].id && row.req.action == ActionOf(w.calls[c].tool)
  {
    assert Granted(st, w, w.db.txs[row.id].job.req);
    var d :| Grants(st, w, d, row.req);
    assert CallOk(st, w, c) && CallOk(st, w, d);
  }

  /** An answer repeats the committed row of its key. */
  lemma AnswerHasRow(db: Db, i: nat) returns (j: nat)
    requires AnswersOk(db) && RowsOk(db) && i < |db.answers|
    ensures j < |db.tables.actions| && CommittedBy(db, db.tables.actions[j])
    ensures var a, row := db.answers[i], db.tables.actions[j];
            && row.req.key == a.req.key && row.req.action == a.response.action
            && row.reference == Some(a.response.reference)
  {
    var a := db.answers[i];
    SequentialRemembers(db.answers, i);
    var row := ByKey(db.tables.actions, a.req.key).value;
    j :| 0 <= j < |db.tables.actions| && db.tables.actions[j] == row;
    assert RowOk(db, db.tables.actions[j]);
  }

  /** A result that reaches the worker was delivered by a committed row. */
  lemma ResultIsDelivered(st: Settings, w: World, c: nat, i: nat)
    requires AnswersOk(w.db) && RowsOk(w.db) && AnsweredWhenFinished(w.db)
    requires SessionsOk(w) && GrantsOk(st, w) && CallsOk(st, w)
    requires c < |w.calls| && w.calls[c].stage.Executing?
    requires i < |w.db.answers| && w.db.answers[i].tx == w.calls[c].stage.execution
    ensures w.db.answers[i].response.action == ActionOf(w.calls[c].tool)
    ensures Delivered(w.db, w.calls[c].seen.id, w.db.answers[i].response.action, w.db.answers[i].response.reference)
  {
    assert CallOk(st, w, c) && AnswerOfFinished(w.db, w.db.answers[i]);
    var j := AnswerHasRow(w.db, i);
    SameKeySameSession(st, w, c, w.db.answers[i].req, w.db.tables.actions[j]);
  }

  /** A result that is no replay was delivered by the row of the call's own request. */
  lemma ResultIsOwn(st: Settings, w: World, c: nat, i: nat)
    requires AnswersOk(w.db) && RowsOk(w.db) && KeysOk(w.db) && AnsweredWhenFinished(w.db) && CallsOk(st, w)
    requires c < |w.calls| && w.calls[c].stage.Executing?
    requires i < |w.db.answers| && w.db.answers[i].tx == w.calls[c].stage.execution && !w.db.answers[i].response.replay
    ensures DeliveredOwn(st, w, c, w.db.answers[i].response.reference)
  {
    var t := w.db.answers[i].tx;
    assert CallOk(st, w, c) && AnswerOfFinished(w.db, w.db.answers[i]);
    var j := AnswerHasRow(w.db, i);
    assert HasRow(w.db, t);
    var k :| 0 <= k < |w.db.tables.actions| && w.db.tables.actions[k].id == t;
    assert RowOk(w.db, w.db.tables.actions[k]);
    assert k < j || j < k || j == k;
    assert IsOwnRow(st, w, c, w.db.answers[i].response.reference, j);
  }

  lemma DeliveredOwnStays(st: Settings, w: World, w': World, c: nat, reference: string)
    requires SessionsGrown(w, w') && SameCalls(w, w') && VerdictsGrown(w.db, w'.db) && StoreGrown(w.db, w'.db)
    requires DeliveredOwn(st, w, c, reference)
    ensures DeliveredOwn(st, w', c, reference)
  {
    var i :| 0 <= i < |w.db.tables.actions| && IsOwnRow(st, w, c, reference, i);
    assert w'.db.tables.actions[i] == w.db.tables.actions[i];
    GrantStays(st, w, w', c, w.db.tables.actions[i].req);
    assert IsOwnRow(st, w', c, reference, i);
  }

  lemma DeliveredStays(db: Db, db': Db, session: string, action: Action, reference: string)
    requires StoreGrown(db, db') && Delivered(db, session, action, reference)
    ensures Delivered(db', session, action, reference)
  {
    var i :| 0 <= i < |db.tables.actions|
      && db.tables.actions[i].req.session == session && db.tables.actions[i].req.action == action
      && db.tables.actions[i].reference == Some(reference);
    assert db'.tables.actions[i] == db.tables.actions[i];
  }

  lemma CallStays(st: Settings, w: World, w': World, c: nat)
    requires SessionsGrown(w, w') && SameCalls(w, w') && VerdictsGrown(w.db, w'.db) && StoreGrown(w.db, w'.db)
    requires c < |w.calls| && CallOk(st, w, c) && w'.calls[c].stage == w.calls[c].stage
    ensures CallOk(st, w', c)
  {
    var call := w.calls[c];
    assert Grown(w.sessions[call.session], w'.sessions[call.session]);
    match call.stage
    case Deciding =>
    case Judging(t) =>
    case Executing(t) => GrantStays(st, w, w', c, w.db.txs[t].job.req);
    case Over(outcome) =>
      if outcome.Executed? {
        DeliveredStays(w.db, w'.db, call.seen.id, outcome.action, outcome.reference);
        if !outcome.replay {
          DeliveredOwnStays(st, w, w', c, outcome.reference);
        }
      }
  }

  /** A call that the step does not move stays in order. */
  lemma UnmovedCallOk(st: Settings, w: World, step: Step, c: nat)
    requires Can(st, w, step) && c < |w.calls| && CallOk(st, w, c)
    requires Do(st, w, step).calls[c].stage == w.calls[c].stage
    ensures CallOk(st, Do(st, w, step), c)
  {
    WorldGrows(st, w, step);
    StoreGrows(st, w, step);
    CallStays(st, w, Do(st, w, step), c);
  }

  predicate Moves(step: Step) {
    step.Decide? || step.ReceiveVerdict? || step.LoseVerdict? || step.ReceiveResult? || step.LoseResult?
  }

  lemma DecidedCallOk(st: Settings, w: World, step: Step)
    requires step.Decide? && Can(st, w, step) && CallOk(st, w, step.c)
    ensures CallOk(st, Do(st, w, step), step.c)
  {
    ToolContextIsFaithful(w.calls[step.c].seen, w.calls[step.c].tool);
  }

  lemma JudgedCallOk(st: Settings, w: World, step: Step)
    requires step.ReceiveVerdict? && Can(st, w, step) && CallOk(st, w, step.c) && VerdictsOk(st, w.db)
    ensures CallOk(st, Do(st, w, step), step.c)
  {
    var w', call := Do(st, w, step), w.calls[step.c];
    SessionsGrownStep(st, w, step);
    assert Grown(w.sessions[call.session], w'.sessions[call.session]);
    if w'.calls[step.c].stage.Executing? {
      NewGrant(st, w, step.c, step.newKey);
    }
  }

  lemma ReceivedCallOk(st: Settings, w: World, c: nat, r: Response)
    requires c < |w.calls| && CallOk(st, w, c) && w.calls[c].stage.Executing?
    requires r.action == ActionOf(w.calls[c].tool) && Delivered(w.db, w.calls[c].seen.id, r.action, r.reference)
    requires !r.replay ==> DeliveredOwn(st, w, c, r.reference)
    ensures CallOk(st, Goto(w, c, Over(Report(Some(r)))), c)
  {
    if !r.replay {
      DeliveredOwnStays(st, w, Goto(w, c, Over(Report(Some(r)))), c, r.reference);
    }
  }

  lemma ExecutedCallOk(st: Settings, w: World, c: nat, answer: nat)
    requires AnswersOk(w.db) && RowsOk(w.db) && KeysOk(w.db) && AnsweredWhenFinished(w.db)
    requires SessionsOk(w) && GrantsOk(st, w) && CallsOk(st, w) && Can(st, w, ReceiveResult(c, answer))
    ensures CallOk(st, Do(st, w, ReceiveResult(c, answer)), c)
  {
    var r := w.db.answers[answer].response;
    assert CallOk(st, w, c);
    ResultIsDelivered(st, w, c, answer);
    if !r.replay {
      ResultIsOwn(st, w, c, answer);
    }
    ReceivedCallOk(st, w, c, r);
  }

  lemma LostCallOk(st: Settings, w: World, step: Step)
    requires (step.LoseVerdict? || step.LoseResult?) && Can(st, w, step) && CallOk(st, w, step.c)
    ensures CallOk(st, Do(st, w, step), step.c)
  {
  }

  /** A step moves the stage of one call at most. */
  lemma OneCallMoves(st: Settings, w: World, step: Step, c: nat)
    requires Can(st, w, step) && c < |w.calls| && !(Moves(step) && step.c == c)
    ensures c < |Do(st, w, step).calls| && Do(st, w, step).calls[c] == w.calls[c]
  {
  }

  lemma NewCallOk(st: Settings, w: World, step: Step, c: nat)
    requires Can(st, w, step) && |w.calls| <= c < |Do(st, w, step).calls|
    ensures CallOk(st, Do(st, w, step), c)
  {
  }

  lemma CallsOkStep(st: Settings, w: World, step: Step)
    requires AnswersOk(w.db) && RowsOk(w.db) && KeysOk(w.db) && AnsweredWhenFinished(w.db)
    requires SessionsOk(w) && VerdictsOk(st, w.db) && GrantsOk(st, w) && CallsOk(st, w) && Can(st, w, step)
    ensures CallsOk(st, Do(st, w, step))
  {
    forall c: nat | c < |Do(st, w, step).calls| ensures CallOk(st, Do(st, w, step), c) {
      if c >= |w.calls| {
        NewCallOk(st, w, step, c);
      } else {
        assert CallOk(st, w, c);
        if !(Moves(step) && step.c == c) {
          OneCallMoves(st, w, step, c);
          UnmovedCallOk(st, w, step, c);
        } else if step.Decide? {
          DecidedCallOk(st, w, step);
        } else if step.ReceiveVerdict? {
          JudgedCallOk(st, w, step);
        } else if step.ReceiveResult? {
          ExecutedCallOk(st, w, step.c, step.answer);
        } else {
          LostCallOk(st, w, step);
        }
      }
    }
  }

  lemma WorldOkStep(st: Settings, w: World, step: Step)
    requires WorldOk(st, w) && Can(st, w, step)
    ensures WorldOk(st, Do(st, w, step))
  {
    StoreOk(st, w, step);
    SessionsOkStep(st, w, step);
    AllWellKeptStep(st, w, step);
    GrantsOkStep(st, w, step);
    CallsOkStep(st, w, step);
  }

  lemma {:induction false} WorldOkAlways(st: Settings, w: World, run: seq<Step>)
    requires WorldOk(st, w) && CanRun(st, w, run)
    ensures WorldOk(st, Ran(st, w, run))
    decreases |run|
  {
    if run != [] {
      WorldOkStep(st, w, run[0]);
      WorldOkAlways(st, Do(st, w, run[0]), run[1..]);
    }
  }
}
