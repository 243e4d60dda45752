/** The conversation tables under all their writers: any number of calls drain their queues into them while
    retention runs purge them. */
module Archive {
  import opened Domain
  import opened Masker
  import opened Conversation
  import opened CallRecord
  import opened Retention

  /** One record for each call, and the two tables that they share. */
  datatype State = State(records: seq<Record>, sessions: seq<CallSession>, turns: seq<TurnRow>)

  const NOTHING := State([], [], [])

  datatype Step =
    | Dial
    | Write(c: nat, op: Op, now: int)
    | Upload(i: nat, url: string)
    | Purge(cutoff: int)

  /** A session id is a new UUID. */
  predicate Possible(a: State, step: Step) {
    match step
    case Dial => true
    case Write(c, op, _) =>
      && c < |a.records| && Conversation.Possible(a.records[c], op)
      && (op.StartSession? ==> forall d :: 0 <= d < |a.records| ==> Some(SessionStart(op.id)) !in a.records[d].sent)
    case Upload(i, _) => i < |a.sessions|
    case Purge(_) => true
  }

  /** The rows that a written item adds. */
  function Insert(a: State, item: Item, now: int): State {
    match item
    case SessionStart(id) => a.(sessions := a.sessions + [CallSession(id, now, None)])
    case Turn(session, index, _, transcript) => a.(turns := a.turns + [TurnRow(session, index, Some(transcript))])
    case _ => a
  }

  function Wrote(a: State, c: nat, op: Op, now: int): State
    requires c < |a.records| && Conversation.Possible(a.records[c], op)
  {
    var r := Conversation.Do(a.records[c], op);
    var a' := a.(records := a.records[c := r]);
    if |r.stored| > |a.records[c].stored| then Insert(a', r.stored[|r.stored| - 1], now) else a'
  }

  ghost function Do(a: State, step: Step): State
    requires Possible(a, step)
  {
    match step
    case Dial => a.(records := a.records + [BLANK])
    case Write(c, op, now) => Wrote(a, c, op, now)
    case Upload(i, url) => a.(sessions := a.sessions[i := a.sessions[i].(audioUrl := Some(url))])
    case Purge(cutoff) =>
      var (sessions, turns) := AfterRun(a.sessions, a.turns, cutoff);
      a.(sessions := sessions, turns := turns)
  }

  ghost predicate Runs(a: State, steps: seq<Step>)
    decreases |steps|
  {
    steps != [] ==> Possible(a, steps[0]) && Runs(Do(a, steps[0]), steps[1..])
  }

  ghost function Final(a: State, steps: seq<Step>): State
    requires Runs(a, steps)
    decreases |steps|
  {
    if steps == [] then a else Final(Do(a, steps[0]), steps[1..])
  }

  // ---------- what every step keeps ----------

  ghost predicate RecordOk(r: Record) {
    SentOk(r) && InOrder(r)
  }

  /** The row is a turn that this record has stored, as it was or purged. */
  ghost predicate StoredBy(r: Record, row: TurnRow) {
    exists i :: 0 <= i < |r.stored| && r.stored[i].Turn?
      && row.session == r.stored[i].session && row.index == r.stored[i].index
      && row.transcript in {Some(r.stored[i].transcript), Some(PURGED)}
  }

  ghost predicate StoredBySome(records: seq<Record>, row: TurnRow) {
    exists c :: 0 <= c < |records| && StoredBy(records[c], row)
  }

  ghost predicate Ok(a: State) {
    && (forall c :: 0 <= c < |a.records| ==> RecordOk(a.records[c]))
    && (forall i :: 0 <= i < |a.turns| ==> StoredBySome(a.records, a.turns[i]))
  }

  lemma StoredGrows(r: Record, op: Op)
    requires Conversation.Possible(r, op)
    ensures r.stored <= Conversation.Do(r, op).stored && |Conversation.Do(r, op).stored| <= |r.stored| + 1
  {
  }

  lemma StoredByStays(records: seq<Record>, c: nat, r: Record, row: TurnRow)
    requires c < |records| && records[c].stored <= r.stored && StoredBySome(records, row)
    ensures StoredBySome(records[c := r], row)
  {
    var d :| 0 <= d < |records| && StoredBy(records[d], row);
    if d == c {
      var i :| 0 <= i < |records[c].stored| && records[c].stored[i].Turn?
        && row.session == records[c].stored[i].session && row.index == records[c].stored[i].index
        && row.transcript in {Some(records[c].stored[i].transcript), Some(PURGED)};
      assert r.stored[i] == records[c].stored[i];
      assert StoredBy(r, row);
    }
    assert StoredBy(records[c := r][d], row);
  }

  lemma OkWrite(a: State, c: nat, op: Op, now: int)
    requires Ok(a) && c < |a.records| && Conversation.Possible(a.records[c], op)
    ensures Ok(Wrote(a, c, op, now))
  {
    var r, a' := Conversation.Do(a.records[c], op), Wrote(a, c, op, now);
    SentOkStep(a.records[c], op);
    InOrderStep(a.records[c], op);
    StoredGrows(a.records[c], op);
    forall i | 0 <= i < |a'.turns| ensures StoredBySome(a'.records, a'.turns[i]) {
      if i < |a.turns| {
        StoredByStays(a.records, c, r, a.turns[i]);
      } else {
        var item := r.stored[|r.stored| - 1];
        assert StoredBy(r, a'.turns[i]);
        assert a'.records[c] == r;
      }
    }
  }

  lemma OkPurge(a: State, cutoff: int)
    requires Ok(a)
    ensures Ok(Do(a, Purge(cutoff)))
  {
    var a' := Do(a, Purge(cutoff));
    forall i | 0 <= i < |a'.turns| ensures StoredBySome(a.records, a'.turns[i]) {
      assert StoredBySome(a.records, a.turns[i]);
      var c :| 0 <= c < |a.records| && StoredBy(a.records[c], a.turns[i]);
      assert StoredBy(a.records[c], a'.turns[i]);
    }
  }

  lemma OkStep(a: State, step: Step)
    requires Ok(a) && Possible(a, step)
    ensures Ok(Do(a, step))
  {
    match step
    case Dial =>
      forall i | 0 <= i < |a.turns| ensures StoredBySome(a.records + [BLANK], a.turns[i]) {
        assert StoredBySome(a.records, a.turns[i]);
        var c :| 0 <= c < |a.records| && StoredBy(a.records[c], a.turns[i]);
        assert (a.records + [BLANK])[c] == a.records[c];
      }
    case Write(c, op, now) => OkWrite(a, c, op, now);
    case Upload(_, _) =>
    case Purge(cutoff) => OkPurge(a, cutoff);
  }

  lemma {:induction false} OkAlways(a: State, steps: seq<Step>)
    requires Ok(a) && Runs(a, steps)
    ensures Ok(Final(a, steps))
    decreases |steps|
  {
    if steps != [] {
      OkStep(a, steps[0]);
      OkAlways(Do(a, steps[0]), steps[1..]);
    }
  }

  // ---------- what holds of the tables ----------

  lemma StoredTurnIsMasked(r: Record, i: nat)
    requires RecordOk(r) && i < |r.stored| && r.stored[i].Turn?
    ensures IsMasked(r.stored[i].transcript)
  {
    var p := KeptWasSent(r.sent[..|r.fates|], r.fates, r.stored[i]);
    assert ItemOk(r.sent, p);
  }

  lemma SafePassesTheGuard(row: TurnRow)
    requires SafeTranscript(row) && row.transcript.Some?
    ensures CheckOutbound(row.transcript.value) == Authorized
  {
    RetainedTranscriptsAreSafe({}, [row]);
    assert PurgeTurns({}, [row])[0] == row;
  }

  /** In every state that calls and retention runs can reach together, every transcript in the table is a
      mask output or the purge marker, and would pass the outbound guard. */
  lemma EveryTranscriptIsSafe(steps: seq<Step>, i: nat)
    requires Runs(NOTHING, steps) && i < |Final(NOTHING, steps).turns|
    ensures var row := Final(NOTHING, steps).turns[i];
            SafeTranscript(row) && row.transcript.Some? && CheckOutbound(row.transcript.value) == Authorized
  {
    OkAlways(NOTHING, steps);
    var a := Final(NOTHING, steps);
    assert StoredBySome(a.records, a.turns[i]);
    var c :| 0 <= c < |a.records| && StoredBy(a.records[c], a.turns[i]);
    var r := a.records[c];
    var k :| 0 <= k < |r.stored| && r.stored[k].Turn?
      && a.turns[i].session == r.stored[k].session && a.turns[i].index == r.stored[k].index
      && a.turns[i].transcript in {Some(r.stored[k].transcript), Some(PURGED)};
    StoredTurnIsMasked(r, k);
    SafePassesTheGuard(a.turns[i]);
  }

  /** Each row of the first table is in the second as it was, or purged. */
  ghost predicate OnlyPurged(turns: seq<TurnRow>, turns': seq<TurnRow>) {
    |turns| <= |turns'|
    && forall i :: 0 <= i < |turns| ==> turns'[i] in {turns[i], turns[i].(transcript := Some(PURGED))}
  }

  /** A purged transcript never comes back, and nothing but a purge changes a row. */
  lemma {:induction false} TurnsAreOnlyPurged(a: State, steps: seq<Step>)
    requires Runs(a, steps)
    ensures OnlyPurged(a.turns, Final(a, steps).turns)
    decreases |steps|
  {
    if steps != [] {
      TurnsAreOnlyPurged(Do(a, steps[0]), steps[1..]);
    }
  }

  /** No row of the call with this id is older than the moment. */
  predicate NoneBefore(sessions: seq<CallSession>, id: nat, moment: int) {
    forall i :: 0 <= i < |sessions| && sessions[i].id == id ==> sessions[i].startTime >= moment
  }

  lemma RecentStep(a: State, step: Step, i: nat, moment: int)
    requires Possible(a, step) && i < |a.turns| && NoneBefore(a.sessions, a.turns[i].session, moment)
    requires (step.Write? ==> step.now >= moment) && (step.Purge? ==> step.cutoff <= moment)
    ensures i < |Do(a, step).turns| && Do(a, step).turns[i] == a.turns[i]
    ensures NoneBefore(Do(a, step).sessions, a.turns[i].session, moment)
  {
  }

  /** A turn of a call that began at a moment or later is left as it is by every run whose cutoff is not after
      that moment, whatever calls go on meanwhile. */
  lemma {:induction false} RecentTurnsAreKept(a: State, steps: seq<Step>, i: nat, moment: int)
    requires Runs(a, steps) && i < |a.turns| && NoneBefore(a.sessions, a.turns[i].session, moment)
    requires forall k :: 0 <= k < |steps| ==>
               (steps[k].Write? ==> steps[k].now >= moment) && (steps[k].Purge? ==> steps[k].cutoff <= moment)
    ensures i < |Final(a, steps).turns| && Final(a, steps).turns[i] == a.turns[i]
    decreases |steps|
  {
    if steps != [] {
      RecentStep(a, steps[0], i, moment);
      RecentTurnsAreKept(Do(a, steps[0]), steps[1..], i, moment);
    }
  }

  /** A purge in any state leaves no transcript and no audio pointer of a call older than its cutoff. */
  lemma PurgeLeavesNothingOld(a: State, cutoff: int, i: nat)
    requires i < |a.turns| && IsOld(a.sessions, cutoff, a.turns[i].session)
    ensures var after := Do(a, Purge(cutoff));
            && |after.turns| == |a.turns| && |after.sessions| == |a.sessions|
            && (a.turns[i].transcript.Some? ==> after.turns[i].transcript == Some(PURGED))
            && (forall k :: 0 <= k < |a.sessions| && a.sessions[k].startTime < cutoff ==>
                  after.sessions[k] == a.sessions[k].(audioUrl := None))
  {
    NothingOldNothingChanges(a.sessions, a.turns, cutoff);
    var k :| 0 <= k < |a.sessions| && a.sessions[k].id == a.turns[i].session && a.sessions[k].startTime < cutoff;
    assert a.turns[i].session in OldIds(a.sessions, cutoff);
    forall k | 0 <= k < |a.sessions| && a.sessions[k].startTime < cutoff
      ensures a.sessions[k].id in OldIds(a.sessions, cutoff)
    {
    }
  }
}
