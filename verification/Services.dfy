/** The service code itself, statement by statement over a database that other transactions use at
    the same time. `others` gives, for each point where the code can be interrupted, the steps that
    other transactions try there; `waits` gives those tried while the code waits for a lock. */
module Services {
  import opened Domain
  import opened AuditChain
  import opened PolicyEngine
  import opened Store
  import opened StoreInvariant
  import opened StoreChain
  import opened Linearizability
  import opened LedgerTheorems
  import opened Progress
  import opened Platform
  import opened PlatformInvariant

  lemma {:induction false} LegalExtend(cfg: Config, db: Db, run: seq<Event>, e: Event)
    requires Legal(cfg, db, run) && Enabled(After(cfg, db, run), e)
    ensures Legal(cfg, db, run + [e]) && After(cfg, db, run + [e]) == Apply(cfg, After(cfg, db, run), e)
    decreases |run|
  {
    if run == [] {
      assert run + [e] == [e];
    } else {
      assert (run + [e])[1..] == run[1..] + [e] && (run + [e])[0] == run[0];
      LegalExtend(cfg, Apply(cfg, db, run[0]), run[1..], e);
    }
  }

  /** What a transaction may rely on while others run: its own state is left alone, committed verdicts
      stay, and answers are only added. */
  ghost predicate Undisturbed(before: Db, after: Db, t: nat)
    requires t < |before.txs|
  {
    && |before.txs| <= |after.txs| && after.txs[t] == before.txs[t]
    && before.answers <= after.answers && before.tables.verdicts <= after.tables.verdicts
    && before.tables.actions <= after.tables.actions && before.tables.audit <= after.tables.audit
    && (forall i :: |before.answers| <= i < |after.answers| ==> after.answers[i].tx != t)
  }

  predicate Foreign(e: Event, t: nat) {
    e.Begin? || e.t != t
  }

  lemma ForeignStepLeavesAlone(cfg: Config, before: Db, db: Db, e: Event, t: nat)
    requires t < |before.txs| && Undisturbed(before, db, t) && Enabled(db, e) && Foreign(e, t)
    ensures Undisturbed(before, Apply(cfg, db, e), t)
  {
    var after := Apply(cfg, db, e);
    assert after.answers[..|db.answers|] == db.answers;
    forall i | |before.answers| <= i < |after.answers| ensures after.answers[i].tx != t {
      if i < |db.answers| {
        assert after.answers[i] == db.answers[i];
      }
    }
  }

  /** Nothing but transaction `t` has moved. */
  ghost predicate Alone(before: Db, after: Db, t: nat) {
    |after.txs| == |before.txs| && forall u :: 0 <= u < |before.txs| && u != t ==> after.txs[u] == before.txs[u]
  }

  lemma OwnStepIsAlone(cfg: Config, db: Db, e: Event)
    requires Enabled(db, e) && !e.Begin?
    ensures Alone(db, Apply(cfg, db, e), e.t)
  {
    TxsAreUpdated(cfg, db, e);
  }

  /** Another transaction is still under way. */
  ghost predicate SomeoneElse(db: Db, t: nat) {
    exists u :: 0 <= u < |db.txs| && u != t && !Finished(db.txs[u])
  }

  /** Other transactions take those of the given steps that they can. */
  ghost function Tried(cfg: Config, db: Db, t: nat, events: seq<Event>): Db {
    if events == [] then db else
    var before, e := Tried(cfg, db, t, events[..|events| - 1]), events[|events| - 1];
    if Foreign(e, t) && Enabled(before, e) then Apply(cfg, before, e) else before
  }

  class Database {
    const cfg: Config
    var db: Db
    ghost var history: seq<Event>

    /** The state is the one its history of legal steps leads to. */
    ghost predicate Valid()
      reads this
    {
      Legal(cfg, INIT, history) && After(cfg, INIT, history) == db
    }

    constructor (cfg: Config)
      ensures Valid() && db == INIT && history == [] && this.cfg == cfg
    {
      this.cfg := cfg;
      db := INIT;
      history := [];
    }

    method Do(e: Event)
      requires Valid() && Enabled(db, e)
      modifies this
      ensures Valid() && db == Apply(cfg, old(db), e) && history == old(history) + [e]
      ensures !e.Begin? ==> Alone(old(db), db, e.t)
    {
      if !e.Begin? {
        OwnStepIsAlone(cfg, db, e);
      }
      LegalExtend(cfg, INIT, history, e);
      db := Apply(cfg, db, e);
      history := history + [e];
    }

    /** Other transactions take those of the given steps that they can. */
    method Others(t: nat, events: seq<Event>)
      requires Valid() && t < |db.txs|
      modifies this
      ensures Valid() && Undisturbed(old(db), db, t) && old(history) <= history
      ensures db == Tried(cfg, old(db), t, events)
    {
      for i := 0 to |events|
        invariant Valid() && Undisturbed(old(db), db, t) && old(history) <= history
        invariant db == Tried(cfg, old(db), t, events[..i])
      {
        assert events[..i + 1][..i] == events[..i];
        if Foreign(events[i], t) && Enabled(db, events[i]) {
          ForeignStepLeavesAlone(cfg, old(db), db, events[i], t);
          Do(events[i]);
        }
      }
      assert events[..|events|] == events;
    }
  }

  /** What a service call comes to: its answer, an exception, or still waiting for a lock when the
      given steps of the others are used up. */
  datatype Result<T> = Answered(value: T) | Raised | Waiting

  function At(others: seq<seq<Event>>, k: nat): seq<Event> {
    if k < |others| then others[k] else []
  }

  /** The transaction has gone on without being answered, committed or rolled back. */
  ghost predicate Continued(before: Db, after: Db, t: nat)
    requires t < |before.txs|
  {
    && |before.txs| <= |after.txs|
    && after.txs[t].job == before.txs[t].job && after.txs[t].reference == before.txs[t].reference
    && after.txs[t].dispatched == before.txs[t].dispatched
    && before.answers <= after.answers && before.tables.verdicts <= after.tables.verdicts
    && before.tables.audit <= after.tables.audit
    && (forall i :: |before.answers| <= i < |after.answers| ==> after.answers[i].tx != t)
  }

  lemma ContinuedUndisturbed(a: Db, b: Db, c: Db, t: nat)
    requires t < |a.txs| && Continued(a, b, t) && Undisturbed(b, c, t)
    ensures Continued(a, c, t)
  {
    forall i | |a.answers| <= i < |c.answers| ensures c.answers[i].tx != t {
      if i < |b.answers| {
        assert c.answers[i] == b.answers[i];
      }
    }
  }

  lemma ContinuedStep(cfg: Config, before: Db, db: Db, e: Event, t: nat)
    requires t < |before.txs| && Continued(before, db, t) && Enabled(db, e)
    requires (e.Lock? || e.ReadHead? || e.Append? || e.Project?) && e.t == t
    ensures Continued(before, Apply(cfg, db, e), t)
  {
  }

  /** The previous hash an appended row links to is the head of the committed chain. */
  lemma AppendedIsChained(cfg: Config, run: seq<Event>, t: nat)
    requires Legal(cfg, INIT, run) && t < |After(cfg, INIT, run).txs| && After(cfg, INIT, run).txs[t].stage.Appended?
    ensures var db := After(cfg, INIT, run);
            db.lock == Some(t) && db.txs[t].previous == Head(Entries(db.tables.audit))
  {
    Reachable(cfg, run);
    var db := After(cfg, INIT, run);
    assert ChainedTx(cfg, db, db.txs[t]) && HoldsLock(db.txs[t]);
  }

  /** PgAuditLedger.append: take the lock, read the previous hash, insert. */
  method Append(pg: Database, t: nat, now: string, others: seq<seq<Event>>, waits: seq<seq<Event>>)
    returns (done: bool)
    requires pg.Valid() && t < |pg.db.txs| && pg.db.txs[t].stage.Written?
    modifies pg
    ensures pg.Valid() && old(pg.history) <= pg.history
    ensures Continued(old(pg.db), pg.db, t)
    ensures pg.db.txs[t].stage == if done then Appended else Written
    ensures done ==> pg.db.lock == Some(t) && pg.db.txs[t].previous == Head(Entries(pg.db.tables.audit))
    ensures !done ==> pg.db.lock.Some? && SomeoneElse(pg.db, t)
    ensures others == [] && waits == [] ==> Alone(old(pg.db), pg.db, t)
  {
    ghost var before := pg.db;
    Interrupt(pg, before, t, At(others, 0));
    AwaitLock(pg, before, t, waits);
    if pg.db.lock.Some? {
      HolderIsElse(pg.cfg, pg.history, t);
      return false;
    }
    AppendUnderLock(pg, before, t, now, At(others, 1), At(others, 2));
    done := true;
  }

  /** The part of append that follows the wait: lock, read the head, insert. */
  method AppendUnderLock(pg: Database, ghost before: Db, t: nat, now: string, first: seq<Event>, second: seq<Event>)
    requires pg.Valid() && t < |before.txs| && Continued(before, pg.db, t)
    requires pg.db.txs[t].stage.Written? && pg.db.lock.None?
    modifies pg
    ensures pg.Valid() && old(pg.history) <= pg.history
    ensures Continued(before, pg.db, t) && pg.db.txs[t].stage.Appended?
    ensures pg.db.lock == Some(t) && pg.db.txs[t].previous == Head(Entries(pg.db.tables.audit))
    ensures first == [] && second == [] ==> Alone(old(pg.db), pg.db, t)
  {
    Continue(pg, before, t, Lock(t));
    Interrupt(pg, before, t, first);
    Continue(pg, before, t, ReadHead(t));
    Interrupt(pg, before, t, second);
    Continue(pg, before, t, Event.Append(t, now));
    AppendedIsChained(pg.cfg, pg.history, t);
  }

  /** Who waits for the audit lock waits for another transaction. */
  lemma HolderIsElse(cfg: Config, run: seq<Event>, t: nat)
    requires Legal(cfg, INIT, run) && t < |After(cfg, INIT, run).txs|
    requires After(cfg, INIT, run).txs[t].stage.Written? && After(cfg, INIT, run).lock.Some?
    ensures SomeoneElse(After(cfg, INIT, run), t)
  {
    Reachable(cfg, run);
    var db := After(cfg, INIT, run);
    assert HoldsLock(db.txs[db.lock.value]) && db.lock.value != t;
  }

  /** The others take their turns as long as the lock is held. */
  ghost function LockAwaited(cfg: Config, db: Db, t: nat, waits: seq<seq<Event>>): Db
    decreases |waits|
  {
    if db.lock.None? || waits == [] then db else LockAwaited(cfg, Tried(cfg, db, t, waits[0]), t, waits[1..])
  }

  /** The append waits while another transaction holds the audit lock. */
  method AwaitLock(pg: Database, ghost before: Db, t: nat, waits: seq<seq<Event>>)
    requires pg.Valid() && t < |before.txs| && Continued(before, pg.db, t) && pg.db.txs[t].stage.Written?
    modifies pg
    ensures pg.Valid() && old(pg.history) <= pg.history
    ensures t < |old(pg.db).txs| && Continued(before, pg.db, t) && pg.db.txs[t] == old(pg.db).txs[t]
    ensures pg.db == LockAwaited(pg.cfg, old(pg.db), t, waits)
  {
    var w := 0;
    assert waits[0..] == waits;
    while pg.db.lock.Some? && w < |waits|
      invariant pg.Valid() && old(pg.history) <= pg.history
      invariant w <= |waits|
      invariant LockAwaited(pg.cfg, pg.db, t, waits[w..]) == LockAwaited(pg.cfg, old(pg.db), t, waits)
      invariant Continued(before, pg.db, t) && pg.db.txs[t] == old(pg.db).txs[t]
      decreases |waits| - w
    {
      Interrupt(pg, before, t, waits[w]);
      w := w + 1;
    }
  }

  /** Others run; what has been established since `before` still holds. */
  method Interrupt(pg: Database, ghost before: Db, t: nat, events: seq<Event>)
    requires pg.Valid() && t < |before.txs| && Continued(before, pg.db, t)
    modifies pg
    ensures pg.Valid() && old(pg.history) <= pg.history
    ensures t < |old(pg.db).txs| && Undisturbed(old(pg.db), pg.db, t) && Continued(before, pg.db, t)
    ensures pg.db == Tried(pg.cfg, old(pg.db), t, events)
  {
    ghost var here := pg.db;
    pg.Others(t, events);
    ContinuedUndisturbed(before, here, pg.db, t);
  }

  /** The transaction takes a step that neither answers nor ends it. */
  method Continue(pg: Database, ghost before: Db, t: nat, e: Event)
    requires pg.Valid() && t < |before.txs| && Continued(before, pg.db, t) && Enabled(pg.db, e)
    requires (e.Lock? || e.ReadHead? || e.Append? || e.Project?) && e.t == t
    modifies pg
    ensures pg.Valid() && old(pg.history) <= pg.history
    ensures Enabled(old(pg.db), e) && pg.db == Apply(pg.cfg, old(pg.db), e) && Continued(before, pg.db, t)
    ensures Alone(old(pg.db), pg.db, t)
  {
    ContinuedStep(pg.cfg, before, pg.db, e, t);
    pg.Do(e);
  }

  // ---------- ExecutionService.execute ----------

  /** What the outside world contributes to one execution: the adapter's reference or its failure, the
      clock, whether the projection succeeds, whether the commit goes through. */
  datatype Outside = Outside(dispatch: Option<string>, now: string, projects: bool, commits: bool)

  /** The call's response is the one new answer of its transaction. */
  ghost predicate AnsweredBy(before: Db, after: Db, t: nat, response: Response) {
    && before.answers <= after.answers
    && exists i :: |before.answers| <= i < |after.answers|
         && after.answers[i].tx == t && after.answers[i].response == response
  }

  /** What the outcome of an execution says of its transaction. It raises only for a failed dispatch, a failed
      commit or a verdict that was not there when it began, and waits only for another transaction. */
  ghost predicate OutcomeOf(start: Db, after: Db, t: nat, req: Request, outside: Outside, result: Result<Response>) {
    && t < |after.txs|
    && var tx := after.txs[t];
       && tx.job == Job.Execute(req)
       && (tx.dispatched ==>
             if outside.dispatch.Some? then tx.reference == outside.dispatch.value else result.Raised?)
       && match result
          case Answered(response) =>
            && AnsweredBy(start, after, t, response)
            && (if response.replay then tx.stage == Replayed
                else tx.stage == Committed && tx.dispatched && tx.projected == outside.projects)
          case Raised =>
            && tx.stage == Aborted
            && (outside.dispatch.None? || !outside.commits || !VerdictExists(start.tables.verdicts, req.verdictId))
          case Waiting =>
            && !Finished(tx) && SomeoneElse(after, t)
            && if tx.dispatched then after.lock.Some? else KeyIsHeld(after, req.key)
  }

  lemma {:induction false} ByKeyStays(actions: seq<ActionRow>, more: seq<ActionRow>, key: Key)
    requires actions <= more
    ensures ByKey(actions, key).Some? ==> ByKey(more, key) == ByKey(actions, key)
  {
    if actions != [] && actions[0].req.key != key {
      assert more[0] == actions[0];
      ByKeyStays(actions[1..], more[1..], key);
    }
  }

  /** ExecutionService.execute, whatever other transactions do in between: a run of the step machine, so
      all that holds of its runs holds of it. Its response is the answer the machine has recorded for
      its transaction; a key that was committed before the call is replayed and never dispatched. */
  method Execute(pg: Database, req: Request, outside: Outside, others: seq<seq<Event>>, waits: seq<seq<Event>>)
    returns (result: Result<Response>, t: nat)
    requires pg.Valid()
    modifies pg
    ensures pg.Valid() && old(pg.history) <= pg.history
    ensures t == |old(pg.db).txs| && OutcomeOf(old(pg.db), pg.db, t, req, outside, result)
    ensures AllFinished(old(pg.db)) && others == [] && waits == [] ==> !result.Waiting?
    ensures var seen := ByKey(old(pg.db).tables.actions, req.key);
            seen.Some? ==> result == Answered(Replay(seen.value)) && !pg.db.txs[t].dispatched
  {
    t := |pg.db.txs|;
    pg.Do(Begin(Job.Execute(req)));
    ghost var before := pg.db;
    Interrupt(pg, before, t, At(others, 0));
    ByKeyStays(before.tables.actions, pg.db.tables.actions, req.key);
    var existing := ByKey(pg.db.tables.actions, req.key);
    pg.Do(Lookup(t));
    if existing.Some? {
      assert pg.db.answers[|pg.db.answers| - 1] == Answer(t, req, Replay(existing.value));
      return Answered(Replay(existing.value)), t;
    }
    result := InsertAction(pg, before, req, t, outside, others, waits);
  }

  /** The part of execute from the flush on. */
  method InsertAction(pg: Database, ghost start: Db, req: Request, t: nat, outside: Outside,
                      others: seq<seq<Event>>, waits: seq<seq<Event>>)
    returns (result: Result<Response>)
    requires pg.Valid() && t < |start.txs| && Continued(start, pg.db, t)
    requires pg.db.txs[t].stage.Inserting? && pg.db.txs[t].job == Job.Execute(req) && !pg.db.txs[t].dispatched
    modifies pg
    ensures pg.Valid() && old(pg.history) <= pg.history
    ensures OutcomeOf(start, pg.db, t, req, outside, result)
    ensures others == [] && waits == [] ==> Alone(old(pg.db), pg.db, t)
  {
    Interrupt(pg, start, t, At(others, 1));
    AwaitKey(pg, start, req, t, waits);
    if KeyIsHeld(pg.db, req.key) {
      HolderIsUnfinished(pg.db, req.key, t);
      return Waiting;
    }
    ghost var flushing := pg.db;
    var integrityError := FlushRow(pg, start, req, t, At(others, 2));
    if integrityError {
      result := LookAgain(pg, start, flushing, req, t, outside);
      return;
    }
    result := Perform(pg, start, req, t, outside, others[if |others| < 3 then |others| else 3..], waits);
  }

  /** The flush of the pending row, and what others do before the next statement. */
  method FlushRow(pg: Database, ghost start: Db, req: Request, t: nat, others: seq<Event>)
    returns (integrityError: bool)
    requires pg.Valid() && t < |start.txs| && Continued(start, pg.db, t) && !KeyIsHeld(pg.db, req.key)
    requires pg.db.txs[t].stage.Inserting? && pg.db.txs[t].job == Job.Execute(req) && !pg.db.txs[t].dispatched
    modifies pg
    ensures pg.Valid() && old(pg.history) <= pg.history
    ensures Continued(start, pg.db, t) && pg.db.txs[t].stage == if integrityError then Rechecking else Reserved
    ensures integrityError == IntegrityError(old(pg.db), Job.Execute(req))
    ensures old(pg.db).tables.actions <= pg.db.tables.actions
    ensures others == [] ==> Alone(old(pg.db), pg.db, t)
  {
    integrityError := IntegrityError(pg.db, Job.Execute(req));
    FlushContinues(pg.cfg, start, pg.db, t);
    pg.Do(Flush(t));
    Interrupt(pg, start, t, others);
  }

  lemma FlushContinues(cfg: Config, start: Db, db: Db, t: nat)
    requires t < |start.txs| && Continued(start, db, t) && Enabled(db, Flush(t))
    ensures Continued(start, Apply(cfg, db, Flush(t)), t)
  {
  }

  /** Who waits for a key waits for another transaction. */
  lemma HolderIsUnfinished(db: Db, key: Key, t: nat)
    requires t < |db.txs| && db.txs[t].stage.Inserting? && KeyIsHeld(db, key)
    ensures SomeoneElse(db, t)
  {
    var u :| 0 <= u < |db.txs| && HoldsKey(db.txs[u], key);
    assert u != t && !Finished(db.txs[u]);
  }

  /** The others take their turns as long as the key is held. */
  ghost function KeyAwaited(cfg: Config, db: Db, key: Key, t: nat, waits: seq<seq<Event>>): Db
    decreases |waits|
  {
    if !KeyIsHeld(db, key) || waits == [] then db
    else KeyAwaited(cfg, Tried(cfg, db, t, waits[0]), key, t, waits[1..])
  }

  /** The flush waits while an unfinished transaction holds the key. */
  method AwaitKey(pg: Database, ghost start: Db, req: Request, t: nat, waits: seq<seq<Event>>)
    requires pg.Valid() && t < |start.txs| && Continued(start, pg.db, t) && pg.db.txs[t].stage.Inserting?
    modifies pg
    ensures pg.Valid() && old(pg.history) <= pg.history
    ensures t < |old(pg.db).txs| && Continued(start, pg.db, t) && pg.db.txs[t] == old(pg.db).txs[t]
    ensures pg.db == KeyAwaited(pg.cfg, old(pg.db), req.key, t, waits)
  {
    var w := 0;
    assert waits[0..] == waits;
    while KeyIsHeld(pg.db, req.key) && w < |waits|
      invariant pg.Valid() && old(pg.history) <= pg.history
      invariant w <= |waits|
      invariant KeyAwaited(pg.cfg, pg.db, req.key, t, waits[w..]) ==
                KeyAwaited(pg.cfg, old(pg.db), req.key, t, waits)
      invariant Continued(start, pg.db, t) && pg.db.txs[t] == old(pg.db).txs[t]
      decreases |waits| - w
    {
      Interrupt(pg, start, t, waits[w]);
      w := w + 1;
    }
  }

  /** The part of execute after an integrity error: a lost race on the key is replayed, any other error is
      raised, and then the verdict was not there when the call began. */
  method LookAgain(pg: Database, ghost start: Db, ghost flushing: Db, req: Request, t: nat, ghost outside: Outside)
    returns (result: Result<Response>)
    requires pg.Valid() && t < |start.txs| && Continued(start, pg.db, t)
    requires pg.db.txs[t].stage.Rechecking? && pg.db.txs[t].job == Job.Execute(req) && !pg.db.txs[t].dispatched
    requires flushing.tables.actions <= pg.db.tables.actions && start.tables.verdicts <= flushing.tables.verdicts
    requires IntegrityError(flushing, Job.Execute(req))
    modifies pg
    ensures pg.Valid() && old(pg.history) <= pg.history
    ensures OutcomeOf(start, pg.db, t, req, outside, result)
    ensures result.Answered? ==> result.value.replay
    ensures !result.Answered? ==> result.Raised? && !VerdictExists(start.tables.verdicts, req.verdictId)
    ensures Alone(old(pg.db), pg.db, t)
  {
    ByKeyStays(flushing.tables.actions, pg.db.tables.actions, req.key);
    var existing := ByKey(pg.db.tables.actions, req.key);
    pg.Do(Recheck(t));
    if existing.Some? {  // lost a race on the same key
      assert pg.db.answers[|pg.db.answers| - 1] == Answer(t, req, Replay(existing.value));
      return Answered(Replay(existing.value));
    }
    NoVerdictBefore(start.tables.verdicts, flushing.tables.verdicts, req.verdictId);
    result := Raised;
  }

  lemma NoVerdictBefore(verdicts: seq<VerdictRow>, more: seq<VerdictRow>, id: Uuid)
    requires verdicts <= more && !VerdictExists(more, id)
    ensures !VerdictExists(verdicts, id)
  {
    assert forall i :: 0 <= i < |verdicts| ==> verdicts[i] == more[i];
  }

  lemma CommitAnswers(cfg: Config, start: Db, db: Db, t: nat)
    requires start.answers <= db.answers && Enabled(db, Commit(t)) && db.txs[t].job.Execute?
    ensures AnsweredBy(start, Apply(cfg, db, Commit(t)), t,
                       Response(db.txs[t].reference, db.txs[t].job.req.action, false))
    ensures Apply(cfg, db, Commit(t)).txs[t] == db.txs[t].(stage := Committed, pending := EMPTY)
  {
    var after := Apply(cfg, db, Commit(t));
    assert after.answers[|db.answers|].tx == t;
  }

  lemma DispatchContinues(cfg: Config, start: Db, db: Db, t: nat, reference: string)
    requires t < |start.txs| && Continued(start, db, t) && Enabled(db, Dispatch(t, reference))
    ensures var after := Apply(cfg, db, Dispatch(t, reference));
            && start.answers <= after.answers && t < |after.txs| && after.txs[t].stage.Written?
            && after.txs[t].job == start.txs[t].job && after.txs[t].reference == reference && after.txs[t].dispatched
  {
  }

  /** The part of execute from the dispatch on. */
  method Perform(pg: Database, ghost start: Db, req: Request, t: nat, outside: Outside,
                 others: seq<seq<Event>>, waits: seq<seq<Event>>)
    returns (result: Result<Response>)
    requires pg.Valid() && t < |start.txs| && Continued(start, pg.db, t)
    requires pg.db.txs[t].stage.Reserved? && pg.db.txs[t].job == Job.Execute(req) && !pg.db.txs[t].dispatched
    modifies pg
    ensures pg.Valid() && old(pg.history) <= pg.history
    ensures OutcomeOf(start, pg.db, t, req, outside, result)
    ensures pg.db.txs[t].dispatched && (result.Answered? ==> !result.value.replay)
    ensures result.Raised? ==> outside.dispatch.None? || !outside.commits
    ensures others == [] && waits == [] ==> Alone(old(pg.db), pg.db, t)
  {
    if outside.dispatch.None? {
      pg.Do(DispatchFails(t));
      return Raised;
    }
    var reference := outside.dispatch.value;
    DispatchContinues(pg.cfg, start, pg.db, t, reference);
    pg.Do(Dispatch(t, reference));
    ghost var dispatched := pg.db;
    var appended := Append(pg, t, outside.now, others, waits);
    if !appended {
      return Waiting;
    }
    result := Settle(pg, start, dispatched, t, outside, others[if |others| < 3 then |others| else 3..]);
  }

  /** The part of execute from the projection on. */
  method Settle(pg: Database, ghost start: Db, ghost dispatched: Db, t: nat, outside: Outside,
                others: seq<seq<Event>>)
    returns (result: Result<Response>)
    requires pg.Valid() && t < |dispatched.txs| && Continued(dispatched, pg.db, t)
    requires start.answers <= dispatched.answers
    requires pg.db.txs[t].stage.Appended? && pg.db.txs[t].job.Execute?
    modifies pg
    ensures pg.Valid() && old(pg.history) <= pg.history && t < |pg.db.txs|
    ensures others == [] ==> Alone(old(pg.db), pg.db, t)
    ensures var before, after := dispatched.txs[t], pg.db.txs[t];
            && after.job == before.job && after.reference == before.reference && after.dispatched == before.dispatched
            && (if outside.commits
                then && after.stage == Committed && after.projected == outside.projects
                     && result == Answered(Response(before.reference, before.job.req.action, false))
                     && AnsweredBy(start, pg.db, t, result.value)
                else after.stage == Aborted && result == Raised)
  {
    Interrupt(pg, dispatched, t, At(others, 0));
    Continue(pg, dispatched, t, Project(t, outside.projects));
    Interrupt(pg, dispatched, t, At(others, 1));
    if !outside.commits {
      pg.Do(Abort(t));
      return Raised;
    }
    CommitAnswers(pg.cfg, start, pg.db, t);
    pg.Do(Commit(t));
    result := Answered(Response(pg.db.txs[t].reference, pg.db.txs[t].job.req.action, false));
  }

  // ---------- PolicyService._persist ----------

  /** The verdict is computed, inserted, audited and committed in one transaction; the id that comes
      back is that of a persisted row. */
  method JudgeAction(pg: Database, ctx: PolicyContext, th: Thresholds, id: Uuid, now: string, commits: bool,
                     others: seq<seq<Event>>, waits: seq<seq<Event>>)
    returns (result: Result<VerdictResult>, t: nat)
    requires pg.Valid() && FreshVerdictId(pg.db, Judge(VerdictRowFor(th, ctx, id)))
    modifies pg
    ensures pg.Valid() && old(pg.history) <= pg.history
    ensures t == |old(pg.db).txs| < |pg.db.txs|
    ensures result.Answered? ==>
              result.value == EvaluateAction(ctx, th) && HasVerdict(pg.db, VerdictRowFor(th, ctx, id))
    ensures result.Raised? ==> !commits
    ensures result.Waiting? ==> pg.db.lock.Some? && SomeoneElse(pg.db, t)
    ensures AllFinished(old(pg.db)) && others == [] && waits == [] ==> !result.Waiting?
    ensures pg.db.txs[t].stage == match result
                                  case Answered(_) => Committed
                                  case Raised => Aborted
                                  case Waiting => Written
  {
    t := |pg.db.txs|;
    var verdict := EvaluateAction(ctx, th);
    var row := VerdictRow(id, ctx.session, ctx.customer, ctx.action, false, verdict.verdict, verdict.ruleId, Some(ctx));
    pg.Do(Begin(Judge(row)));
    ghost var before := pg.db;
    Interrupt(pg, before, t, At(others, 0));
    pg.Do(Flush(t));
    ghost var flushed := pg.db;
    Interrupt(pg, flushed, t, At(others, 1));
    var rest := others[if |others| < 2 then |others| else 2..];
    var end := AuditAndCommit(pg, t, now, commits, rest, waits);
    result := match end case Answered(_) => Answered(verdict) case Raised => Raised case Waiting => Waiting;
  }

  /** The audit row is the one that the job of this transaction asks for. */
  ghost predicate RecordsJob(t: nat, job: Job, row: AuditRow) {
    AuditOf(t, job, "") == (row.entry.session, row.entry.event, row.entry.payload, row.entity)
  }

  /** The part of a policy or retention transaction from its audit entry on. When it commits, its entry is
      the last one, after all that was there before and all that was committed meanwhile; when it does not,
      it leaves none. */
  method AuditAndCommit(pg: Database, t: nat, now: string, commits: bool, others: seq<seq<Event>>,
                        waits: seq<seq<Event>>)
    returns (end: Result<AuditRow>)
    requires pg.Valid() && t < |pg.db.txs| && pg.db.txs[t].stage.Written? && !pg.db.txs[t].job.Execute?
    modifies pg
    ensures pg.Valid() && old(pg.history) <= pg.history
    ensures t < |pg.db.txs| && pg.db.txs[t].job == old(pg.db).txs[t].job
    ensures end.Answered? ==>
              var audit := pg.db.tables.audit;
              && audit != [] && audit[|audit| - 1] == end.value && RecordsJob(t, pg.db.txs[t].job, end.value)
              && old(pg.db).tables.audit <= audit[..|audit| - 1]
    ensures end.Answered? && pg.db.txs[t].job.Judge? ==> HasVerdict(pg.db, pg.db.txs[t].job.verdictRow)
    ensures end.Raised? ==> !commits
    ensures end.Waiting? ==> pg.db.lock.Some? && SomeoneElse(pg.db, t)
    ensures others == [] && waits == [] ==> Alone(old(pg.db), pg.db, t)
    ensures pg.db.txs[t].stage == match end
                                  case Answered(_) => Committed
                                  case Raised => Aborted
                                  case Waiting => Written
  {
    ghost var start := pg.db;
    var appended := Append(pg, t, now, others, waits);
    if !appended {
      return Waiting;
    }
    end := CommitEntry(pg, start, t, commits, At(others, 3));
  }

  /** The commit, or its failure, of a policy or retention transaction whose entry is flushed. */
  method CommitEntry(pg: Database, ghost start: Db, t: nat, commits: bool, others: seq<Event>)
    returns (end: Result<AuditRow>)
    requires pg.Valid() && t < |start.txs| && Continued(start, pg.db, t)
    requires pg.db.txs[t].stage.Appended? && !pg.db.txs[t].job.Execute?
    modifies pg
    ensures pg.Valid() && old(pg.history) <= pg.history
    ensures t < |pg.db.txs| && pg.db.txs[t].job == start.txs[t].job
    ensures if commits
            then
              var audit := pg.db.tables.audit;
              && end.Answered? && pg.db.txs[t].stage == Committed
              && audit != [] && audit[|audit| - 1] == end.value && RecordsJob(t, pg.db.txs[t].job, end.value)
              && start.tables.audit <= audit[..|audit| - 1]
              && (pg.db.txs[t].job.Judge? ==> HasVerdict(pg.db, pg.db.txs[t].job.verdictRow))
            else end.Raised? && pg.db.txs[t].stage == Aborted
    ensures others == [] ==> Alone(old(pg.db), pg.db, t)
  {
    Interrupt(pg, start, t, others);
    if !commits {
      pg.Do(Abort(t));
      return Raised;
    }
    CommitIsRecorded(pg.cfg, pg.history, t);
    pg.Do(Commit(t));
    end := Answered(pg.db.tables.audit[|pg.db.tables.audit| - 1]);
  }

  lemma CommitIsRecorded(cfg: Config, run: seq<Event>, t: nat)
    requires Legal(cfg, INIT, run) && Enabled(After(cfg, INIT, run), Commit(t))
    requires !After(cfg, INIT, run).txs[t].job.Execute?
    ensures var db, after := After(cfg, INIT, run), Apply(cfg, After(cfg, INIT, run), Commit(t));
            var n := |db.tables.audit|;
            && |after.tables.audit| == n + 1 && after.tables.audit[..n] == db.tables.audit
            && RecordsJob(t, db.txs[t].job, after.tables.audit[n])
            && (db.txs[t].job.Judge? ==> HasVerdict(after, db.txs[t].job.verdictRow))
  {
    Reachable(cfg, run);
    var db := After(cfg, INIT, run);
    assert TxOk(cfg, db.txs[t], t);
    if db.txs[t].job.Judge? {
      assert Apply(cfg, db, Commit(t)).tables.verdicts[|db.tables.verdicts|] == db.txs[t].job.verdictRow;
    }
  }
}
