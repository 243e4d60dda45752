/** Runs that show that states which the theorems speak of are reached: a call carried through by the code
    alone, dispatches wasted from the start, and a second payment that is told as done and was not. */
module Scenarios {
  import opened Domain
  import opened AuditChain
  import opened PolicyEngine
  import opened Store
  import opened StoreInvariant
  import opened Progress
  import opened Services
  import opened GuardedAction
  import opened Platform
  import opened PlatformInvariant
  import opened PlatformTheorems
  import Session

  // ---------- one transaction, carried through ----------

  /** No transaction is under way, but perhaps the last one, which has just begun. */
  ghost predicate Calm(db: Db) {
    db.lock == None && forall u :: 0 <= u < |db.txs| ==> Finished(db.txs[u])
  }

  lemma CalmHoldsNoKey(db: Db, job: Job, key: Key)
    requires Calm(db)
    ensures !KeyIsHeld(db, key) && !KeyIsHeld(Submit(db, job), key)
  {
  }

  /** From its acquisition of the audit lock on: what a transaction adds when nobody interferes. */
  lemma Appends(cfg: Config, db: Db, t: nat) returns (run: seq<Event>, row: AuditRow)
    requires t < |db.txs| && db.txs[t].stage.Written? && db.lock == None
    ensures Legal(cfg, db, run) && NoBegin(run)
    ensures var after, tx := After(cfg, db, run), db.txs[t];
            && after == db.(lock := Some(t), nextSeq := after.nextSeq, txs := after.txs)
            && t < |after.txs| && after.txs == db.txs[t := after.txs[t]]
            && after.txs[t] == tx.(stage := Appended, previous := after.txs[t].previous,
                                   pending := tx.pending.(audit := [row]))
  {
    var a := Apply(cfg, db, Lock(t));
    var b := Apply(cfg, a, ReadHead(t));
    var c := Apply(cfg, b, Event.Append(t, ""));
    row := c.txs[t].pending.audit[0];
    run := [Lock(t)] + ([ReadHead(t)] + [Event.Append(t, "")]);
    OneStepRun(cfg, b, Event.Append(t, ""));
    OneStepRun(cfg, a, ReadHead(t));
    RunsJoin(cfg, a, [ReadHead(t)], [Event.Append(t, "")]);
    OneStepRun(cfg, db, Lock(t));
    RunsJoin(cfg, db, [Lock(t)], [ReadHead(t)] + [Event.Append(t, "")]);
  }

  ghost predicate NoBegin(run: seq<Event>) {
    forall i :: 0 <= i < |run| ==> !run[i].Begin?
  }

  /** A judgment that has just begun is persisted. */
  lemma JudgmentGoesThrough(cfg: Config, db: Db, row: VerdictRow) returns (run: seq<Event>)
    requires Calm(db)
    ensures var t, begun := |db.txs|, Submit(db, Judge(row));
            && Legal(cfg, begun, run) && NoBegin(run)
            && var after := After(cfg, begun, run);
               && Calm(after) && |after.txs| == t + 1 && after.txs[..t] == db.txs
               && after.txs[t].stage == Committed && after.txs[t].job == Judge(row)
               && after.tables.verdicts == db.tables.verdicts + [row] && after.tables.actions == db.tables.actions
               && after.answers == db.answers && after.dispatches == db.dispatches
  {
    var t, begun := |db.txs|, Submit(db, Judge(row));
    var flushed := Apply(cfg, begun, Flush(t));
    var rest, audit := Appends(cfg, flushed, t);
    var appended := After(cfg, flushed, rest);
    OneStepRun(cfg, begun, Flush(t));
    RunsJoin(cfg, begun, [Flush(t)], rest);
    OneStepRun(cfg, appended, Commit(t));
    RunsJoin(cfg, begun, [Flush(t)] + rest, [Commit(t)]);
    run := [Flush(t)] + rest + [Commit(t)];
  }

  /** An execution that has just begun, under a key that is not committed, is dispatched, and its action
      is committed. */
  lemma ExecutionGoesThrough(cfg: Config, db: Db, req: Request, reference: string) returns (run: seq<Event>)
    requires Calm(db) && VerdictExists(db.tables.verdicts, req.verdictId) && ByKey(db.tables.actions, req.key).None?
    ensures var t, begun := |db.txs|, Submit(db, Execute(req));
            && Legal(cfg, begun, run) && NoBegin(run)
            && var after := After(cfg, begun, run);
               && Calm(after) && |after.txs| == t + 1 && after.txs[..t] == db.txs && after.txs[t].job == Execute(req)
               && after.tables.verdicts == db.tables.verdicts
               && after.tables.actions == db.tables.actions + [ActionRow(t, req, Succeeded, Some(reference))]
               && after.answers == db.answers + [Answer(t, req, Response(reference, req.action, false))]
  {
    var t, begun := |db.txs|, Submit(db, Execute(req));
    CalmHoldsNoKey(db, Execute(req), req.key);
    var dispatched, first := IsDispatched(cfg, begun, t, reference);
    var rest, audit := Appends(cfg, dispatched, t);
    var appended := After(cfg, dispatched, rest);
    var last := [Project(t, true)] + [Commit(t)];
    var projected := Apply(cfg, appended, Project(t, true));
    OneStepRun(cfg, projected, Commit(t));
    OneStepRun(cfg, appended, Project(t, true));
    RunsJoin(cfg, appended, [Project(t, true)], [Commit(t)]);
    RunsJoin(cfg, begun, first, rest);
    RunsJoin(cfg, begun, first + rest, last);
    run := first + rest + last;
  }

  lemma IsDispatched(cfg: Config, db: Db, t: nat, reference: string) returns (after: Db, run: seq<Event>)
    requires t < |db.txs| && db.txs[t].job.Execute? && db.txs[t] == Opened(db.txs[t].job)
    requires var req := db.txs[t].job.req;
             && !KeyIsHeld(db, req.key) && ByKey(db.tables.actions, req.key).None?
             && VerdictExists(db.tables.verdicts, req.verdictId)
    ensures Legal(cfg, db, run) && NoBegin(run) && after == After(cfg, db, run)
    ensures var tx := db.txs[t];
            after == db.(dispatches := db.dispatches + [tx.job.req.key],
                         txs := db.txs[t := tx.(stage := Written, dispatched := true, reference := reference,
                                                pending := DomainRows(t, tx.job, reference))])
  {
    var a := Apply(cfg, db, Lookup(t));
    assert forall u :: 0 <= u < |db.txs| && u != t ==> a.txs[u] == db.txs[u];
    assert !KeyIsHeld(a, db.txs[t].job.req.key);
    var b := Apply(cfg, a, Flush(t));
    after := Apply(cfg, b, Dispatch(t, reference));
    run := [Lookup(t)] + ([Flush(t)] + [Dispatch(t, reference)]);
    OneStepRun(cfg, b, Dispatch(t, reference));
    OneStepRun(cfg, a, Flush(t));
    RunsJoin(cfg, a, [Flush(t)], [Dispatch(t, reference)]);
    OneStepRun(cfg, db, Lookup(t));
    RunsJoin(cfg, db, [Lookup(t)], [Flush(t)] + [Dispatch(t, reference)]);
  }

  /** An execution that has just begun, under a committed key, is replayed. */
  lemma ExecutionIsReplayed(cfg: Config, db: Db, req: Request) returns (run: seq<Event>)
    requires Calm(db) && ByKey(db.tables.actions, req.key).Some?
    ensures var t, begun := |db.txs|, Submit(db, Execute(req));
            && Legal(cfg, begun, run) && NoBegin(run)
            && var after := After(cfg, begun, run);
               && Calm(after) && |after.txs| == t + 1 && after.txs[..t] == db.txs && after.txs[t].job == Execute(req)
               && after.tables == db.tables
               && after.answers == db.answers + [Answer(t, req, Replay(ByKey(db.tables.actions, req.key).value))]
  {
    var t, begun := |db.txs|, Submit(db, Execute(req));
    run := [Lookup(t)];
    OneStepRun(cfg, begun, Lookup(t));
  }

  // ---------- dispatches wasted from the start ----------

  /** A state in which an action can be tried is reached. */
  lemma ATryIsReached(cfg: Config, row: VerdictRow, req: Request) returns (run: seq<Event>)
    requires row.id == req.verdictId
    ensures Legal(cfg, INIT, run) && CanTry(After(cfg, INIT, run), req) && After(cfg, INIT, run).dispatches == []
  {
    var rest := JudgmentGoesThrough(cfg, INIT, row);
    OneStepRun(cfg, INIT, Begin(Judge(row)));
    RunsJoin(cfg, INIT, [Begin(Judge(row))], rest);
    run := [Begin(Judge(row))] + rest;
    var db := After(cfg, INIT, run);
    assert db.tables.verdicts[0].id == req.verdictId;
    CalmHoldsNoKey(db, Judge(row), req.key);
  }

  /** From the initial state: for every number there is a run that dispatches an action that many times and
      leaves it uncommitted. */
  lemma AnyNumberOfDispatches(cfg: Config, row: VerdictRow, req: Request, n: nat) returns (run: seq<Event>)
    requires row.id == req.verdictId
    ensures Legal(cfg, INIT, run) && multiset(After(cfg, INIT, run).dispatches)[req.key] == n
    ensures ByKey(After(cfg, INIT, run).tables.actions, req.key).None?
  {
    var first := ATryIsReached(cfg, row, req);
    var rest := DispatchesAreUnbounded(cfg, After(cfg, INIT, first), req, n);
    RunsJoin(cfg, INIT, first, rest);
    run := first + rest;
  }

  // ---------- one call, carried through ----------

  function Wrapped(events: seq<Event>): seq<Step> {
    if events == [] then [] else [Service(events[0])] + Wrapped(events[1..])
  }

  lemma {:induction false} ServiceRun(st: Settings, w: World, events: seq<Event>)
    requires Legal(st.store, w.db, events) && NoBegin(events)
    ensures CanRun(st, w, Wrapped(events))
    ensures Ran(st, w, Wrapped(events)) == w.(db := After(st.store, w.db, events))
    decreases |events|
  {
    if events != [] {
      var next := w.(db := Apply(st.store, w.db, events[0]));
      assert Wrapped(events)[1..] == Wrapped(events[1..]);
      ServiceRun(st, next, events[1..]);
    }
  }

  lemma OneWorldStep(st: Settings, w: World, step: Step)
    requires Can(st, w, step)
    ensures CanRun(st, w, [step]) && Ran(st, w, [step]) == Do(st, w, step)
  {
    assert [step][1..] == [] && Ran(st, Do(st, w, step), []) == Do(st, w, step);
  }

  /** The tool call `tool` of session `s`, with a new verdict id and a new key at hand. */
  datatype Wish = Wish(s: nat, tool: Tool, id: Uuid, key: Key)

  /** Nothing stands in the way of the wish: policy authorizes it and the ids are new. */
  ghost predicate Allowed(st: Settings, w: World, wish: Wish) {
    && wish.s < |w.sessions| && Calm(w.db) && wish.id != "" && FreshKey(w, wish.key)
    && var seen := w.sessions[wish.s];
       && st.confidence <= Recommend(ActionOf(wish.tool), seen.identityVerified)
       && EvaluateAction(Judged(seen, wish.tool), st.thresholds).verdict.Authorized?
       && FreshVerdictId(w.db, Judge(RowOf(st, w, wish)))
  }

  function RowOf(st: Settings, w: World, wish: Wish): VerdictRow
    requires wish.s < |w.sessions|
  {
    VerdictRowFor(st.thresholds, Judged(w.sessions[wish.s], wish.tool), wish.id)
  }

  function KeyedSession(w: World, wish: Wish): Session.State
    requires wish.s < |w.sessions|
  {
    Session.WithKey(w.sessions[wish.s], ActionOf(wish.tool), wish.key)
  }

  function RequestFrom(w: World, wish: Wish): Request
    requires wish.s < |w.sessions|
  {
    RequestOf(Call(wish.s, w.sessions[wish.s], wish.tool, Deciding), KeyedSession(w, wish).keys[ActionOf(wish.tool)],
              wish.id)
  }

  function Called(w: World, wish: Wish, stage: CallStage): seq<Call>
    requires wish.s < |w.sessions|
  {
    w.calls + [Call(wish.s, w.sessions[wish.s], wish.tool, stage)]
  }

  lemma PolicyIsAsked(st: Settings, w: World, wish: Wish) returns (run: seq<Step>)
    requires Allowed(st, w, wish)
    ensures CanRun(st, w, run)
    ensures Ran(st, w, run) == w.(db := Submit(w.db, Judge(RowOf(st, w, wish))),
                                  calls := Called(w, wish, Judging(|w.db.txs|)))
  {
    var c, a := |w.calls|, Do(st, w, CallTool(wish.s, wish.tool));
    run := [CallTool(wish.s, wish.tool)] + [Decide(c, true, wish.id)];
    DecidingIsTheFacade(st, a, c, true, wish.id);
    OneWorldStep(st, w, CallTool(wish.s, wish.tool));
    OneWorldStep(st, a, Decide(c, true, wish.id));
    RunJoins(st, w, [CallTool(wish.s, wish.tool)], [Decide(c, true, wish.id)]);
    var b := Do(st, a, Decide(c, true, wish.id));
    assert b.calls == Called(w, wish, Judging(|w.db.txs|)) && b.sessions == w.sessions;
  }

  /** The verdict on the wish arrives when it is persisted. */
  lemma ExecutionIsAsked(st: Settings, w: World, wish: Wish, db: Db)
    requires Allowed(st, w, wish) && |db.txs| == |w.db.txs| + 1
    requires db.txs[|w.db.txs|].stage == Committed && db.txs[|w.db.txs|].job == Judge(RowOf(st, w, wish))
    ensures var judged, step := w.(db := db, calls := Called(w, wish, Judging(|w.db.txs|))),
                                ReceiveVerdict(|w.calls|, wish.key);
            && Can(st, judged, step)
            && Do(st, judged, step) == World(Submit(db, Execute(RequestFrom(w, wish))),
                                             w.sessions[wish.s := KeyedSession(w, wish)],
                                             Called(w, wish, Executing(|db.txs|)))
  {
    var judged := w.(db := db, calls := Called(w, wish, Judging(|w.db.txs|)));
    var call := judged.calls[|w.calls|];
    RequestCarriesTheSession(call, KeyedSession(w, wish).keys[ActionOf(wish.tool)], wish.id);
    assert judged.calls[|w.calls| := call.(stage := Executing(|db.txs|))] == Called(w, wish, Executing(|db.txs|));
  }

  lemma ResultIsReceived(st: Settings, w: World, wish: Wish, w': World, t: nat, a: nat)
    requires wish.s < |w.sessions| && w'.calls == Called(w, wish, Executing(t))
    requires a < |w'.db.answers| && w'.db.answers[a].tx == t
    ensures var step := ReceiveResult(|w.calls|, a);
            && Can(st, w', step)
            && Do(st, w', step) == w'.(calls := Called(w, wish, Over(Report(Some(w'.db.answers[a].response)))))
  {
    var done := Over(Report(Some(w'.db.answers[a].response)));
    assert w'.calls[|w.calls| := w'.calls[|w.calls|].(stage := done)] == Called(w, wish, done);
  }

  /** How the wish ends: its key is committed already and the caller gets the replay, or its own action is
      committed and the caller gets its reference. */
  ghost predicate CarriedThrough(st: Settings, w: World, wish: Wish, reference: string, w': World)
    requires wish.s < |w.sessions|
  {
    var req, n := RequestFrom(w, wish), |w.db.txs|;
    var known := ByKey(w.db.tables.actions, req.key);
    && Calm(w'.db) && w'.sessions == w.sessions[wish.s := KeyedSession(w, wish)]
    && |w'.db.txs| == n + 2 && w'.db.txs[..n] == w.db.txs
    && w'.db.txs[n].job == Judge(RowOf(st, w, wish)) && w'.db.txs[n + 1].job == Execute(req)
    && w'.calls == Called(w, wish, Over(Report(Some(
         if known.Some? then Replay(known.value) else Response(reference, req.action, false)))))
    && w'.db.tables.actions == w.db.tables.actions
       + if known.Some? then [] else [ActionRow(n + 1, req, Succeeded, Some(reference))]
  }

  lemma Executes(cfg: Config, db: Db, req: Request, reference: string) returns (run: seq<Event>)
    requires Calm(db) && VerdictExists(db.tables.verdicts, req.verdictId)
    ensures var t, begun, known := |db.txs|, Submit(db, Execute(req)), ByKey(db.tables.actions, req.key);
            && Legal(cfg, begun, run) && NoBegin(run)
            && var after := After(cfg, begun, run);
               && Calm(after) && |after.txs| == t + 1 && after.txs[..t] == db.txs && after.txs[t].job == Execute(req)
               && after.tables.actions == db.tables.actions
                  + (if known.Some? then [] else [ActionRow(t, req, Succeeded, Some(reference))])
               && after.answers == db.answers
                  + [Answer(t, req, if known.Some? then Replay(known.value)
                                    else Response(reference, req.action, false))]
  {
    if ByKey(db.tables.actions, req.key).Some? {
      run := ExecutionIsReplayed(cfg, db, req);
    } else {
      run := ExecutionGoesThrough(cfg, db, req, reference);
    }
  }

  lemma CallGoesThrough(st: Settings, w: World, wish: Wish, reference: string) returns (run: seq<Step>)
    requires Allowed(st, w, wish)
    ensures CanRun(st, w, run) && CarriedThrough(st, w, wish, reference, Ran(st, w, run))
  {
    var row, req, n, c := RowOf(st, w, wish), RequestFrom(w, wish), |w.db.txs|, |w.calls|;
    var asking := PolicyIsAsked(st, w, wish);
    var asked := Ran(st, w, asking);
    var judging := JudgmentGoesThrough(st.store, w.db, row);
    ServiceRun(st, asked, judging);
    var judged := asked.(db := After(st.store, asked.db, judging));
    assert judged.db.tables.verdicts[|w.db.tables.verdicts|].id == req.verdictId;
    ExecutionIsAsked(st, w, wish, judged.db);
    OneWorldStep(st, judged, ReceiveVerdict(c, wish.key));
    var ruled := Do(st, judged, ReceiveVerdict(c, wish.key));
    var executing := Executes(st.store, judged.db, req, reference);
    ServiceRun(st, ruled, executing);
    var executed := ruled.(db := After(st.store, ruled.db, executing));
    var a := |judged.db.answers|;
    ResultIsReceived(st, w, wish, executed, n + 1, a);
    OneWorldStep(st, executed, ReceiveResult(c, a));
    var received := Do(st, executed, ReceiveResult(c, a));
    var ending := Wrapped(executing) + [ReceiveResult(c, a)];
    RunJoins(st, ruled, Wrapped(executing), [ReceiveResult(c, a)]);
    RunJoins(st, judged, [ReceiveVerdict(c, wish.key)], ending);
    RunJoins(st, asked, Wrapped(judging), [ReceiveVerdict(c, wish.key)] + ending);
    RunJoins(st, w, asking, Wrapped(judging) + ([ReceiveVerdict(c, wish.key)] + ending));
    run := asking + (Wrapped(judging) + ([ReceiveVerdict(c, wish.key)] + ending));
  }

  // ---------- a second payment that is told as done ----------

  const CALLER := Session.Customer("customer", None, false, false, 365)

  /** The caller, verified at the first answer. */
  const VERIFIED := Session.NewSession("call", Some(CALLER)).(identityVerified := true, identityAttempts := 1)

  const FIRST := Wish(0, MakePayment(50.0, true), "first", "key")
  const SECOND := Wish(0, MakePayment(100.0, true), "second", "unused")

  lemma CallerIsVerified(st: Settings) returns (run: seq<Step>)
    ensures CanRun(st, QUIET, run) && Ran(st, QUIET, run) == World(INIT, [VERIFIED], [])
  {
    var open, ask, answer := OpenSession("call", Some(CALLER)), ChangeSession(0, Session.GateOpened),
                             ChangeSession(0, Session.GateClosed([true]));
    var a := Do(st, QUIET, open);
    var b := Do(st, a, ask);
    assert [true][0] && Session.Asked([true]) == [true];
    OneWorldStep(st, b, answer);
    OneWorldStep(st, a, ask);
    RunJoins(st, a, [ask], [answer]);
    OneWorldStep(st, QUIET, open);
    RunJoins(st, QUIET, [open], [ask] + [answer]);
    run := [open] + ([ask] + [answer]);
    assert Do(st, b, answer).sessions == [VERIFIED];
  }

  lemma PaymentIsAuthorized(st: Settings, amount: real, keys: map<Action, Key>)
    requires amount <= st.thresholds.paymentCap
    ensures var judged := Judged(VERIFIED.(keys := keys), MakePayment(amount, true));
            EvaluateAction(judged, st.thresholds).verdict.Authorized?
  {
    AuthorizedExactlyWhen(Judged(VERIFIED.(keys := keys), MakePayment(amount, true)), st.thresholds);
  }

  const BEFORE := World(INIT, [VERIFIED], [])
  const KEYS := map[ExecutePayment := "key"]

  /** The state after the first payment. */
  ghost predicate IsPaid(st: Settings, w: World) {
    && Calm(w.db) && w.sessions == [VERIFIED.(keys := KEYS)]
    && w.calls == Called(BEFORE, FIRST, Over(Executed(ExecutePayment, "reference", false)))
    && w.db.tables.actions == [ActionRow(1, RequestFrom(BEFORE, FIRST), Succeeded, Some("reference"))]
    && |w.db.txs| == 2 && w.db.txs[0].job == Judge(RowOf(st, BEFORE, FIRST)) && w.db.txs[1].job.Execute?
  }

  lemma FirstIsPaid(st: Settings) returns (run: seq<Step>)
    requires st.confidence <= 0.9 && st.thresholds.paymentCap >= 100.0
    ensures CanRun(st, BEFORE, run) && IsPaid(st, Ran(st, BEFORE, run))
  {
    PaymentIsAuthorized(st, 50.0, map[]);
    assert VERIFIED.(keys := map[]) == VERIFIED;
    run := CallGoesThrough(st, BEFORE, FIRST, "reference");
  }

  lemma SecondIsReplayed(st: Settings, w: World) returns (run: seq<Step>)
    requires st.confidence <= 0.9 && st.thresholds.paymentCap >= 100.0 && IsPaid(st, w)
    ensures CanRun(st, w, run) && Ran(st, w, run).db.tables.actions == w.db.tables.actions
    ensures Ran(st, w, run).calls == Called(w, SECOND, Over(Executed(ExecutePayment, "reference", true)))
  {
    PaymentIsAuthorized(st, 100.0, KEYS);
    run := CallGoesThrough(st, w, SECOND, "other");
    assert RequestFrom(w, SECOND).key == "key" && RequestFrom(BEFORE, FIRST).key == "key";
  }

  /** The caller pays 50 and then 100 in one call. The second payment reuses the key of the first and is told
      as executed, with the first one's reference, and 100 is nowhere recorded. */
  lemma RepeatedPaymentExample(st: Settings) returns (run: seq<Step>)
    requires st.confidence <= 0.9 && st.thresholds.paymentCap >= 100.0
    ensures CanRun(st, QUIET, run) && |Ran(st, QUIET, run).calls| == 2
    ensures var w := Ran(st, QUIET, run);
            && w.calls[0].stage == Over(Executed(ExecutePayment, "reference", false))
            && w.calls[1].stage == Over(Executed(ExecutePayment, "reference", true))
            && w.calls[1].tool == MakePayment(100.0, true)
            && !DoneAsAsked(w, w.calls[1], w.calls[1].stage.outcome)
  {
    var verifying := CallerIsVerified(st);
    var paying := FirstIsPaid(st);
    var paid := Ran(st, BEFORE, paying);
    var repeating := SecondIsReplayed(st, paid);
    RunJoins(st, BEFORE, paying, repeating);
    RunJoins(st, QUIET, verifying, paying + repeating);
    run := verifying + (paying + repeating);
    assert PayloadOf(FIRST.tool)[Amount] == Money(50.0) && PayloadOf(SECOND.tool)[Amount] == Money(100.0);
  }
}
