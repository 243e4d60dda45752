/** The durable record of a call against the state of its session. */
module CallRecord {
  import opened Domain
  import opened Masker
  import opened Conversation
  import Session

  // ---------- turn indices ----------

  ghost function TurnCount(items: seq<Option<Item>>): nat {
    if items == [] then 0 else
    var last := items[|items| - 1];
    TurnCount(items[..|items| - 1]) + if last.Some? && last.value.Turn? then 1 else 0
  }

  lemma TurnCountExtend(items: seq<Option<Item>>, item: Option<Item>)
    ensures TurnCount(items + [item]) == TurnCount(items) + if item.Some? && item.value.Turn? then 1 else 0
  {
    assert (items + [item])[..|items|] == items;
  }

  lemma {:induction false} TurnCountGrows(items: seq<Option<Item>>, p: nat, q: nat)
    requires p <= q <= |items|
    ensures TurnCount(items[..p]) <= TurnCount(items[..q])
    decreases q
  {
    if p < q {
      assert items[..q] == items[..q - 1] + [items[q - 1]];
      TurnCountExtend(items[..q - 1], items[q - 1]);
      TurnCountGrows(items, p, q - 1);
    }
  }

  ghost predicate IsMasked(t: Glyphs) {
    exists text :: t == Mask(text)
  }

  /** A turn has the next index and a masked transcript; a sample has the index of the turn just before
      it; whatever is queued for a session comes after the start of that session. */
  ghost predicate ItemOk(sent: seq<Option<Item>>, p: nat)
    requires p < |sent|
  {
    sent[p].Some? ==>
      var item := sent[p].value;
      && (item.Turn? ==> item.index == TurnCount(sent[..p]) + 1 && IsMasked(item.transcript))
      && (item.Sentiment? ==> item.index == TurnCount(sent[..p]) && item.mood == SentimentLabel(item.score))
      && (!item.SessionStart? ==> Some(SessionStart(item.session)) in sent[..p])
  }

  ghost predicate SentOk(r: Record) {
    && r.turnIndex == TurnCount(r.sent)
    && (r.session.Some? ==> Some(SessionStart(r.session.value)) in r.sent)
    && (forall p :: 0 <= p < |r.sent| ==> ItemOk(r.sent, p))
  }

  lemma ItemOkStays(sent: seq<Option<Item>>, more: seq<Option<Item>>, p: nat)
    requires p < |sent| && sent <= more && ItemOk(sent, p)
    ensures ItemOk(more, p)
  {
    assert more[..p] == sent[..p];
  }

  /** One more item that is right where it stands. */
  ghost predicate NextOk(r: Record, item: Option<Item>) {
    item.Some? ==>
      && (item.value.Turn? ==> item.value.index == r.turnIndex + 1 && IsMasked(item.value.transcript))
      && (item.value.Sentiment? ==>
            item.value.index == r.turnIndex && item.value.mood == SentimentLabel(item.value.score))
      && (!item.value.SessionStart? ==> Some(SessionStart(item.value.session)) in r.sent)
  }

  lemma ItemsOkExtend(r: Record, item: Option<Item>)
    requires SentOk(r) && NextOk(r, item)
    ensures var more := r.sent + [item]; forall p :: 0 <= p < |more| ==> ItemOk(more, p)
  {
    var more := r.sent + [item];
    assert more[..|r.sent|] == r.sent;
    forall p | 0 <= p < |more| ensures ItemOk(more, p) {
      if p < |r.sent| {
        ItemOkStays(r.sent, more, p);
      }
    }
  }

  lemma NextIsOk(r: Record, op: Op)
    requires SentOk(r) && Possible(r, op) && Do(r, op).sent != r.sent
    ensures |Do(r, op).sent| == |r.sent| + 1 && NextOk(r, Do(r, op).sent[|r.sent|])
    ensures Do(r, op).sent == r.sent + [Do(r, op).sent[|r.sent|]]
  {
  }

  lemma SentOkExtend(r: Record, r': Record, item: Option<Item>)
    requires SentOk(r) && NextOk(r, item) && r'.sent == r.sent + [item]
    requires r'.turnIndex == r.turnIndex + if item.Some? && item.value.Turn? then 1 else 0
    requires r'.session == r.session || (r'.session.Some? && item == Some(SessionStart(r'.session.value)))
    ensures SentOk(r')
  {
    TurnCountExtend(r.sent, item);
    ItemsOkExtend(r, item);
    assert r'.sent[|r.sent|] == item;
    assert forall p :: 0 <= p < |r.sent| ==> r'.sent[p] == r.sent[p];
  }

  lemma SentOkStep(r: Record, op: Op)
    requires SentOk(r) && Possible(r, op)
    ensures SentOk(Do(r, op))
  {
    var r' := Do(r, op);
    if r'.sent != r.sent {
      NextIsOk(r, op);
      SentOkExtend(r, r', r'.sent[|r.sent|]);
    }
  }

  lemma {:induction false} SentOkAlways(r: Record, ops: seq<Op>)
    requires SentOk(r) && Runs(r, ops)
    ensures SentOk(Final(r, ops))
    decreases |ops|
  {
    if ops != [] {
      SentOkStep(r, ops[0]);
      SentOkAlways(Do(r, ops[0]), ops[1..]);
    }
  }

  // ---------- the database never has to refuse a turn ----------

  lemma {:induction false} KeptWasSent(items: seq<Option<Item>>, fates: seq<bool>, x: Item) returns (p: nat)
    requires |items| == |fates| && None !in items && x in Kept(items, fates)
    ensures p < |items| && items[p] == Some(x) && fates[p]
  {
    var n := |items| - 1;
    if x in Kept(items[..n], fates[..n]) {
      p := KeptWasSent(items[..n], fates[..n], x);
    } else {
      p := n;
    }
  }

  ghost predicate TurnNext(r: Record) {
    r.draining && r.queue != [] && r.queue[0].Some? && r.queue[0].value.Turn?
  }

  lemma SentTurnIsEarlier(sent: seq<Option<Item>>, p: nat, d: nat)
    requires p < d < |sent| && ItemOk(sent, p) && ItemOk(sent, d)
    requires sent[p].Some? && sent[p].value.Turn? && sent[d].Some? && sent[d].value.Turn?
    ensures sent[p].value.index < sent[d].value.index
  {
    assert sent[..p + 1] == sent[..p] + [sent[p]];
    TurnCountExtend(sent[..p], sent[p]);
    TurnCountGrows(sent, p + 1, d);
  }

  lemma NextTurnIsNew(r: Record)
    requires SentOk(r) && InOrder(r) && TurnNext(r)
    ensures !TurnStored(r.stored, r.queue[0].value)
  {
    var d := |r.fates|;
    assert r.queue[0] == r.sent[d] && ItemOk(r.sent, d);
    forall i | 0 <= i < |r.stored| && r.stored[i].Turn? ensures r.stored[i].index < r.queue[0].value.index {
      var p := KeptWasSent(r.sent[..d], r.fates, r.stored[i]);
      assert ItemOk(r.sent, p);
      SentTurnIsEarlier(r.sent, p, d);
    }
  }

  /** Turn indices are 1, 2, ... in the order of the queue, whatever writes were lost: the unique
      constraint on (session, index, speaker) never refuses a turn. */
  lemma UniqueConstraintNeverFires(ops: seq<Op>)
    requires Runs(BLANK, ops)
    ensures SentOk(Final(BLANK, ops))
    ensures var r := Final(BLANK, ops); TurnNext(r) ==> !TurnStored(r.stored, r.queue[0].value)
  {
    SentOkAlways(BLANK, ops);
    InOrderAlways(BLANK, ops);
    if TurnNext(Final(BLANK, ops)) {
      NextTurnIsNew(Final(BLANK, ops));
    }
  }

  // ---------- nothing is lost while the database takes the writes ----------

  ghost predicate Up(op: Op) {
    op.Drain? ==> op.ok
  }

  ghost predicate NothingLost(r: Record) {
    forall i :: 0 <= i < |r.fates| ==> r.fates[i]
  }

  lemma {:induction false} AllKept(items: seq<Option<Item>>, fates: seq<bool>)
    requires |items| == |fates| && None !in items && forall i :: 0 <= i < |fates| ==> fates[i]
    ensures |Kept(items, fates)| == |items|
    ensures forall i :: 0 <= i < |items| ==> items[i] == Some(Kept(items, fates)[i])
  {
    if items != [] {
      AllKept(items[..|items| - 1], fates[..|items| - 1]);
    }
  }

  lemma NothingLostStep(r: Record, op: Op)
    requires SentOk(r) && InOrder(r) && NothingLost(r) && Possible(r, op) && Up(op)
    ensures NothingLost(Do(r, op))
  {
    if TurnNext(r) {
      NextTurnIsNew(r);
    }
    if op.Drain? && r.queue[0].Some? {
      var d, item := |r.fates|, r.queue[0].value;
      assert ItemOk(r.sent, d);
      AllKept(r.sent[..d], r.fates);
      if !item.SessionStart? {
        var p :| 0 <= p < d && r.sent[..d][p] == Some(SessionStart(item.session));
        assert r.stored[p] == SessionStart(item.session);
      }
    }
  }

  lemma RunsExtend(r: Record, ops: seq<Op>, op: Op)
    requires Runs(r, ops + [op])
    ensures Runs(r, ops) && Possible(Final(r, ops), op)
    ensures Final(r, ops + [op]) == Do(Final(r, ops), op)
    decreases |ops|
  {
    if ops == [] {
      assert ops + [op] == [op];
    } else {
      assert (ops + [op])[1..] == ops[1..] + [op] && (ops + [op])[0] == ops[0];
      RunsExtend(Do(r, ops[0]), ops[1..], op);
    }
  }

  lemma {:induction false} NothingLostAlways(ops: seq<Op>)
    requires Runs(BLANK, ops) && forall i :: 0 <= i < |ops| ==> Up(ops[i])
    ensures NothingLost(Final(BLANK, ops))
    decreases |ops|
  {
    if ops != [] {
      var front, last := ops[..|ops| - 1], ops[|ops| - 1];
      assert ops == front + [last];
      RunsExtend(BLANK, front, last);
      NothingLostAlways(front);
      SentOkAlways(BLANK, front);
      InOrderAlways(BLANK, front);
      NothingLostStep(Final(BLANK, front), last);
    }
  }

  /** While the database takes every write, what is stored is what was queued, item by item, up to where
      the drain has come, and that is all before the sentinel when the drain has ended. */
  lemma NothingLostWhileUp(ops: seq<Op>)
    requires Runs(BLANK, ops) && forall i :: 0 <= i < |ops| ==> Up(ops[i])
    ensures var r := Final(BLANK, ops);
            && |r.stored| <= FirstSentinel(r.sent) <= |r.sent|
            && (forall i :: 0 <= i < |r.stored| ==> r.sent[i] == Some(r.stored[i]))
            && (r.draining ==> r.queue == r.sent[|r.stored|..])
            && (!r.draining ==> |r.stored| == FirstSentinel(r.sent))
  {
    NothingLostAlways(ops);
    InOrderAlways(BLANK, ops);
    var r := Final(BLANK, ops);
    AllKept(r.sent[..|r.fates|], r.fates);
    SentinelBounds(r.sent, |r.fates|);
    assert forall i :: 0 <= i < |r.fates| ==> r.sent[i] == r.sent[..|r.fates|][i];
  }

  // ---------- exactly which items are stored ----------

  /** Which writes the database takes, in the order of the drain steps. */
  ghost function Oks(ops: seq<Op>): seq<bool> {
    if ops == [] then [] else
    Oks(ops[..|ops| - 1]) + if ops[|ops| - 1].Drain? then [ops[|ops| - 1].ok] else []
  }

  /** The row of the item's session is among the items written before it. */
  ghost predicate SessionIsStored(r: Record, j: nat)
    requires j < |r.fates| <= |r.sent| && None !in r.sent[..|r.fates|]
  {
    SessionStart(r.sent[j].value.session) in Kept(r.sent[..j], r.fates[..j])
  }

  ghost predicate FatesOk(r: Record, oks: seq<bool>) {
    && |r.fates| <= |r.sent| && None !in r.sent[..|r.fates|] && |oks| == |r.fates| + (if r.draining then 0 else 1)
    && forall j :: 0 <= j < |r.fates| ==>
         (r.fates[j] <==> oks[j] && (r.sent[j].value.SessionStart? || SessionIsStored(r, j)))
  }

  lemma FatesStay(r: Record, r': Record, oks: seq<bool>, oks': seq<bool>, j: nat)
    requires FatesOk(r, oks) && j < |r.fates| && r.sent <= r'.sent && r.fates <= r'.fates && oks <= oks'
    requires |r'.fates| <= |r'.sent| && None !in r'.sent[..|r'.fates|]
    ensures r'.fates[j] <==> oks'[j] && (r'.sent[j].value.SessionStart? || SessionIsStored(r', j))
  {
    assert r'.sent[..j] == r.sent[..j] && r'.fates[..j] == r.fates[..j];
  }

  lemma NewFate(r: Record, ok: bool)
    requires SentOk(r) && InOrder(r) && Possible(r, Drain(ok)) && r.queue[0].Some?
    ensures var d, r' := |r.fates|, Do(r, Drain(ok));
            && |r'.fates| == d + 1 <= |r'.sent| && None !in r'.sent[..d + 1]
            && (r'.fates[d] <==> ok && (r.sent[d].value.SessionStart? || SessionIsStored(r', d)))
  {
    var d, r' := |r.fates|, Do(r, Drain(ok));
    assert r.queue[0] == r.sent[d] && r'.sent[..d + 1] == r.sent[..d] + [r.sent[d]];
    assert r'.sent[..d] == r.sent[..d] && r'.fates[..d] == r.fates;
    if TurnNext(r) {
      NextTurnIsNew(r);
    }
  }

  /** The fates so far stand when the record and the writes go on. */
  lemma FatesAllStay(r: Record, r': Record, oks: seq<bool>, oks': seq<bool>)
    requires FatesOk(r, oks) && r.sent <= r'.sent && r.fates <= r'.fates && oks <= oks'
    requires |r'.fates| <= |r'.sent| && None !in r'.sent[..|r'.fates|]
    ensures forall j :: 0 <= j < |r.fates| ==>
              (r'.fates[j] <==> oks'[j] && (r'.sent[j].value.SessionStart? || SessionIsStored(r', j)))
  {
    forall j: nat | j < |r.fates|
      ensures r'.fates[j] <==> oks'[j] && (r'.sent[j].value.SessionStart? || SessionIsStored(r', j))
    {
      FatesStay(r, r', oks, oks', j);
    }
  }

  lemma FatesOkStep(r: Record, oks: seq<bool>, op: Op)
    requires SentOk(r) && InOrder(r) && FatesOk(r, oks) && Possible(r, op)
    ensures FatesOk(Do(r, op), oks + if op.Drain? then [op.ok] else [])
  {
    var r', oks' := Do(r, op), oks + if op.Drain? then [op.ok] else [];
    RecordGrows(r, op);
    InOrderStep(r, op);
    FatesAllStay(r, r', oks, oks');
    if op.Drain? && r.queue[0].Some? {
      NewFate(r, op.ok);
    }
  }

  lemma RecordGrows(r: Record, op: Op)
    requires InOrder(r) && Possible(r, op)
    ensures var r' := Do(r, op);
            && r.sent <= r'.sent && r.fates <= r'.fates
            && |r'.fates| == |r.fates| + (if op.Drain? && r.queue[0].Some? then 1 else 0)
            && (r'.draining <==> r.draining && !(op.Drain? && r.queue[0].None?))
  {
  }

  /** An item that is drained is stored exactly when the database takes its own write and has taken the one of
      its session: losing a write loses nothing else, but the first, which loses the call. */
  lemma {:induction false} StoredExactlyWhen(ops: seq<Op>)
    requires Runs(BLANK, ops)
    ensures FatesOk(Final(BLANK, ops), Oks(ops))
    decreases |ops|
  {
    if ops != [] {
      var front, last := ops[..|ops| - 1], ops[|ops| - 1];
      assert ops == front + [last];
      RunsExtend(BLANK, front, last);
      StoredExactlyWhen(front);
      SentOkAlways(BLANK, front);
      InOrderAlways(BLANK, front);
      FatesOkStep(Final(BLANK, front), Oks(front), last);
    }
  }

  // ---------- transcripts ----------

  /** In every reachable state every stored transcript is a mask output, and would pass the outbound
      guard. */
  lemma StoredTranscriptsAreMasked(ops: seq<Op>, i: nat)
    requires Runs(BLANK, ops) && i < |Final(BLANK, ops).stored| && Final(BLANK, ops).stored[i].Turn?
    ensures var t := Final(BLANK, ops).stored[i].transcript;
            IsMasked(t) && Clean(t) && CheckOutbound(t) == Authorized
  {
    SentOkAlways(BLANK, ops);
    InOrderAlways(BLANK, ops);
    var r := Final(BLANK, ops);
    var p := KeptWasSent(r.sent[..|r.fates|], r.fates, r.stored[i]);
    assert ItemOk(r.sent, p);
    var text :| r.stored[i].transcript == Mask(text);
    MaskedIsClean(text);
    MaskedPassesTheGuard(text);
  }

  // ---------- the record agrees with the session ----------

  /** What happens in a call: the record is opened first, every caller turn is scored and recorded, the
      session changes in its other ways, and at the end the record is finished and the queue closed.
      `scored` is None when the scorer raises. */
  datatype CallEvent =
    | UserTurn(text: Glyphs, scored: Option<real>)
    | Change(change: Session.Event)
    | Side(op: Op)
    | Shutdown
    | Write(ok: bool)

  datatype Call = Call(user: Session.State, record: Record)

  function Opened(id: nat, user: string, customer: Option<Session.Customer>): Call {
    Call(Session.NewSession(user, customer), Do(BLANK, StartSession(id)))
  }

  function Least(history: seq<real>): real
    requires history != []
  {
    if |history| == 1 then history[0] else
    var rest := Least(history[1..]);
    if rest < history[0] then rest else history[0]
  }

  /** The peak frustration of a history: `max(0.0, -min(history or [0.0]))`. */
  function Peak(history: seq<real>): real {
    if history == [] || Least(history) >= 0.0 then 0.0 else -Least(history)
  }

  predicate SideOp(op: Op) {
    op.RecordEscalation? || op.RecordCallback? || op.RecordConsent?
  }

  predicate CanHappen(c: Call, e: CallEvent) {
    match e
    case Side(op) => SideOp(op)
    case Change(change) => !change.Scored?
    case Write(ok) => Possible(c.record, Drain(ok))
    case _ => true
  }

  function Happen(c: Call, e: CallEvent): Call
    requires CanHappen(c, e)
  {
    match e
    case UserTurn(text, scored) =>
      if text == [] then c else
      var user := if scored.Some? then Session.Step(c.user, Session.Scored(scored.value)) else c.user;
      var history := user.sentimentHistory;
      var score := if history == [] then 0.0 else history[|history| - 1];
      Call(user, Do(Do(c.record, RecordTurn(Caller, text)), RecordSentiment(score)))
    case Change(change) => c.(user := Session.Step(c.user, change))
    case Side(op) => c.(record := Do(c.record, op))
    case Shutdown => c.(record := Do(Do(c.record, FinishSession(Peak(c.user.sentimentHistory))), Close))
    case Write(ok) => c.(record := Do(c.record, Drain(ok)))
  }

  ghost predicate Happens(c: Call, events: seq<CallEvent>)
    decreases |events|
  {
    events != [] ==> CanHappen(c, events[0]) && Happens(Happen(c, events[0]), events[1..])
  }

  ghost function Outcome(c: Call, events: seq<CallEvent>): Call
    requires Happens(c, events)
    decreases |events|
  {
    if events == [] then c else Outcome(Happen(c, events[0]), events[1..])
  }

  /** The scores of the sentiment samples of a list, in order. */
  ghost function Scores(items: seq<Option<Item>>): seq<real> {
    if items == [] then [] else
    var last := items[|items| - 1];
    Scores(items[..|items| - 1]) + if last.Some? && last.value.Sentiment? then [last.value.score] else []
  }

  lemma ScoresExtend(items: seq<Option<Item>>, item: Option<Item>)
    ensures Scores(items + [item]) ==
            Scores(items) + if item.Some? && item.value.Sentiment? then [item.value.score] else []
  {
    assert (items + [item])[..|items|] == items;
  }

  /** A finish carries the peak of the samples before it and the sentinel follows it at once. */
  ghost predicate FinishOk(sent: seq<Option<Item>>, p: nat)
    requires p < |sent|
  {
    sent[p].Some? && sent[p].value.SessionFinish? ==>
      && sent[p].value.maxFrustration == Peak(Scores(sent[..p]))
      && p + 1 < |sent| && sent[p + 1].None?
  }

  ghost predicate CallOk(c: Call) {
    && SentOk(c.record) && InOrder(c.record) && NothingLost(c.record) && c.record.session.Some?
    && Scores(c.record.sent) == c.user.sentimentHistory
    && forall p :: 0 <= p < |c.record.sent| ==> FinishOk(c.record.sent, p)
  }

  /** The scorer answers and the database takes the write. */
  predicate Smooth(e: CallEvent) {
    match e
    case UserTurn(_, scored) => scored.Some?
    case Write(ok) => ok
    case _ => true
  }

  lemma FinishOkStays(sent: seq<Option<Item>>, more: seq<Option<Item>>, p: nat)
    requires p < |sent| && sent <= more && FinishOk(sent, p)
    ensures FinishOk(more, p)
  {
    assert more[..p] == sent[..p];
  }

  lemma RecordOkStep(r: Record, op: Op)
    requires SentOk(r) && InOrder(r) && NothingLost(r) && Possible(r, op) && Up(op)
    ensures var r' := Do(r, op); SentOk(r') && InOrder(r') && NothingLost(r') && (r.session.Some? ==> r'.session.Some?)
    ensures r.sent <= Do(r, op).sent
  {
    SentOkStep(r, op);
    InOrderStep(r, op);
    NothingLostStep(r, op);
  }

  /** Items that are not a finish keep every finish as it is. */
  lemma FinishesStay(sent: seq<Option<Item>>, item: Option<Item>)
    requires forall p :: 0 <= p < |sent| ==> FinishOk(sent, p)
    requires !(item.Some? && item.value.SessionFinish?)
    ensures var more := sent + [item]; forall p :: 0 <= p < |more| ==> FinishOk(more, p)
  {
    var more := sent + [item];
    forall p | 0 <= p < |more| ensures FinishOk(more, p) {
      if p < |sent| {
        FinishOkStays(sent, more, p);
      }
    }
  }

  /** Every operation but a sample and a finish leaves the scores and the finishes as they are. */
  lemma SideOk(c: Call, op: Op)
    requires CallOk(c) && (SideOp(op) || op.RecordTurn?)
    ensures CallOk(c.(record := Do(c.record, op)))
  {
    var r, done := c.record, Do(c.record, op);
    RecordOkStep(r, op);
    FinishesStay(r.sent, done.sent[|r.sent|]);
    ScoresExtend(r.sent, done.sent[|r.sent|]);
  }

  lemma SampleOk(c: Call, score: real)
    requires CallOk(c)
    ensures CallOk(Call(Session.Step(c.user, Session.Scored(score)), Do(c.record, RecordSentiment(score))))
  {
    var r, done := c.record, Do(c.record, RecordSentiment(score));
    RecordOkStep(r, RecordSentiment(score));
    FinishesStay(r.sent, done.sent[|r.sent|]);
    ScoresExtend(r.sent, done.sent[|r.sent|]);
  }

  lemma FinishThenClose(sent: seq<Option<Item>>, finish: Item)
    requires forall p :: 0 <= p < |sent| ==> FinishOk(sent, p)
    requires finish.SessionFinish? && finish.maxFrustration == Peak(Scores(sent))
    ensures var done := sent + [Some(finish)] + [None];
            Scores(done) == Scores(sent) && forall p :: 0 <= p < |done| ==> FinishOk(done, p)
  {
    var done := sent + [Some(finish)] + [None];
    ScoresExtend(sent, Some(finish));
    ScoresExtend(sent + [Some(finish)], None);
    assert done[..|sent|] == sent;
    forall p | 0 <= p < |done| ensures FinishOk(done, p) {
      if p < |sent| {
        FinishOkStays(sent, done, p);
      }
    }
  }

  lemma FinishedAndClosedOk(r: Record, peak: real)
    requires SentOk(r) && InOrder(r) && NothingLost(r) && r.session.Some?
    ensures var done := Do(Do(r, FinishSession(peak)), Close);
            && SentOk(done) && InOrder(done) && NothingLost(done) && done.session.Some?
            && done.sent == r.sent + [Some(SessionFinish(r.session.value, peak))] + [None]
  {
    RecordOkStep(r, FinishSession(peak));
    RecordOkStep(Do(r, FinishSession(peak)), Close);
  }

  lemma ShutdownOk(c: Call)
    requires CallOk(c)
    ensures CallOk(Happen(c, Shutdown))
  {
    var peak := Peak(c.user.sentimentHistory);
    FinishedAndClosedOk(c.record, peak);
    FinishThenClose(c.record.sent, SessionFinish(c.record.session.value, peak));
  }

  lemma UserTurnOk(c: Call, text: Glyphs, score: real)
    requires CallOk(c) && text != []
    ensures CallOk(Happen(c, UserTurn(text, Some(score))))
  {
    var turned := c.(record := Do(c.record, RecordTurn(Caller, text)));
    SideOk(c, RecordTurn(Caller, text));
    SampleOk(turned, score);
    assert Happen(c, UserTurn(text, Some(score))) ==
           Call(Session.Step(turned.user, Session.Scored(score)), Do(turned.record, RecordSentiment(score)));
  }

  lemma HappenOk(c: Call, e: CallEvent)
    requires CallOk(c) && CanHappen(c, e) && Smooth(e)
    ensures CallOk(Happen(c, e))
  {
    match e {
      case UserTurn(text, scored) => if text != [] { UserTurnOk(c, text, scored.value); }
      case Change(_) =>
      case Side(op) => SideOk(c, op);
      case Shutdown => ShutdownOk(c);
      case Write(ok) => RecordOkStep(c.record, Drain(ok));
    }
  }

  lemma {:induction false} CallOkAlways(c: Call, events: seq<CallEvent>)
    requires CallOk(c) && Happens(c, events) && forall i :: 0 <= i < |events| ==> Smooth(events[i])
    ensures CallOk(Outcome(c, events))
    decreases |events|
  {
    if events != [] {
      HappenOk(c, events[0]);
      CallOkAlways(Happen(c, events[0]), events[1..]);
    }
  }

  lemma OpenedIsOk(id: nat, user: string, customer: Option<Session.Customer>)
    ensures CallOk(Opened(id, user, customer))
  {
    var r := Opened(id, user, customer).record;
    assert r.sent == [] + [Some(SessionStart(id))];
    RecordOkStep(BLANK, StartSession(id));
    ScoresExtend([], Some(SessionStart(id)));
  }

  /** The stored record is exactly what was queued before the sentinel, its sample scores are the
      session's sentiment history up to there, and the stored peak frustration, the last item, is the
      peak of those samples. */
  ghost predicate Agrees(c: Call) {
    var n := FirstSentinel(c.record.sent);
    && n == |c.record.stored| && n <= |c.record.sent|
    && (forall i :: 0 <= i < n ==> c.record.sent[i] == Some(c.record.stored[i]))
    && Scores(c.record.sent[..n]) <= c.user.sentimentHistory
    && (forall i :: 0 <= i < n && c.record.stored[i].SessionFinish? ==>
          i == n - 1 && c.record.stored[i].maxFrustration == Peak(Scores(c.record.sent[..n])))
  }

  lemma FinishIsLast(sent: seq<Option<Item>>, n: nat, i: nat)
    requires i < n <= |sent| && (forall q :: 0 <= q < n ==> sent[q].Some?) && FinishOk(sent, i)
    requires sent[i].Some? && sent[i].value.SessionFinish?
    ensures i == n - 1 && sent[i].value.maxFrustration == Peak(Scores(sent[..n]))
  {
    assert i + 1 == n;
    assert sent[..n] == sent[..i] + [sent[i]];
    ScoresExtend(sent[..i], sent[i]);
    assert Scores(sent[..n]) == Scores(sent[..i]);
  }

  lemma EndedRecordAgrees(c: Call)
    requires CallOk(c) && !c.record.draining
    ensures Agrees(c)
  {
    var r, n := c.record, |c.record.fates|;
    SentinelBounds(r.sent, n);
    AllKept(r.sent[..n], r.fates);
    ScoresPrefix(r.sent, n);
    assert forall q :: 0 <= q < n ==> r.sent[q] == r.sent[..n][q];
    forall i | 0 <= i < n && r.stored[i].SessionFinish?
      ensures i == n - 1 && r.stored[i].maxFrustration == Peak(Scores(r.sent[..n]))
    {
      FinishIsLast(r.sent, n, i);
    }
  }

  /** Whatever is scored or recorded after the end of the call, and however often the call is ended: what
      is stored when the drain has ended are samples of the session's history and no other peak. */
  lemma EndedRecordIsAPrefix(id: nat, user: string, customer: Option<Session.Customer>, events: seq<CallEvent>)
    requires Happens(Opened(id, user, customer), events) && forall i :: 0 <= i < |events| ==> Smooth(events[i])
    requires !Outcome(Opened(id, user, customer), events).record.draining
    ensures Agrees(Outcome(Opened(id, user, customer), events))
  {
    OpenedIsOk(id, user, customer);
    CallOkAlways(Opened(id, user, customer), events);
    EndedRecordAgrees(Outcome(Opened(id, user, customer), events));
  }

  /** The scores of the stored samples, in order. */
  ghost function SampleScores(items: seq<Item>): seq<real> {
    if items == [] then [] else
    var last := items[|items| - 1];
    SampleScores(items[..|items| - 1]) + if last.Sentiment? then [last.score] else []
  }

  lemma {:induction false} SampleScoresAreScores(sent: seq<Option<Item>>, stored: seq<Item>)
    requires |sent| == |stored| && forall i :: 0 <= i < |sent| ==> sent[i] == Some(stored[i])
    ensures Scores(sent) == SampleScores(stored)
  {
    if sent != [] {
      SampleScoresAreScores(sent[..|sent| - 1], stored[..|stored| - 1]);
    }
  }

  /** The speakers and transcripts of the turns of a list, in order. */
  ghost function TurnsOf(items: seq<Option<Item>>): seq<(Speaker, Glyphs)> {
    if items == [] then [] else
    var last := items[|items| - 1];
    TurnsOf(items[..|items| - 1])
    + if last.Some? && last.value.Turn? then [(last.value.speaker, last.value.transcript)] else []
  }

  lemma TurnsOfExtend(items: seq<Option<Item>>, item: Option<Item>)
    ensures TurnsOf(items + [item]) ==
            TurnsOf(items)
            + if item.Some? && item.value.Turn? then [(item.value.speaker, item.value.transcript)] else []
  {
    assert (items + [item])[..|items|] == items;
  }

  ghost function StoredTurns(items: seq<Item>): seq<(Speaker, Glyphs)> {
    if items == [] then [] else
    var last := items[|items| - 1];
    StoredTurns(items[..|items| - 1]) + if last.Turn? then [(last.speaker, last.transcript)] else []
  }

  lemma {:induction false} StoredTurnsAreTurns(sent: seq<Option<Item>>, stored: seq<Item>)
    requires |sent| == |stored| && forall i :: 0 <= i < |sent| ==> sent[i] == Some(stored[i])
    ensures TurnsOf(sent) == StoredTurns(stored)
  {
    if sent != [] {
      StoredTurnsAreTurns(sent[..|sent| - 1], stored[..|stored| - 1]);
    }
  }

  /** What the caller says in a call, masked turn by turn. */
  ghost function Spoken(events: seq<CallEvent>): seq<(Speaker, Glyphs)> {
    if events == [] then [] else
    (if events[0].UserTurn? && events[0].text != [] then [(Caller, Mask(events[0].text))] else []) + Spoken(events[1..])
  }

  lemma OpQueuesTurn(r: Record, op: Op)
    requires Possible(r, op)
    ensures TurnsOf(Do(r, op).sent) ==
            TurnsOf(r.sent) + if op.RecordTurn? && r.session.Some? then [(op.speaker, Mask(op.text))] else []
  {
    OneCallQueues(r, op);
    var sent := Do(r, op).sent;
    if |sent| == |r.sent| + 1 {
      assert sent == r.sent + [sent[|r.sent|]];
      TurnsOfExtend(r.sent, sent[|r.sent|]);
    }
  }

  lemma TurnIsQueued(c: Call, e: CallEvent)
    requires c.record.session.Some? && CanHappen(c, e)
    ensures var after := Happen(c, e).record;
            && after.session.Some?
            && TurnsOf(after.sent) ==
               TurnsOf(c.record.sent) + if e.UserTurn? && e.text != [] then [(Caller, Mask(e.text))] else []
  {
    var r := c.record;
    match e {
      case UserTurn(text, scored) =>
        if text != [] {
          var turned := Do(r, RecordTurn(Caller, text));
          OpQueuesTurn(r, RecordTurn(Caller, text));
          assert turned.session.Some?;
          var history := Happen(c, e).user.sentimentHistory;
          OpQueuesTurn(turned, RecordSentiment(if history == [] then 0.0 else history[|history| - 1]));
        }
      case Change(_) =>
      case Side(op) => OpQueuesTurn(r, op);
      case Shutdown =>
        var finish := FinishSession(Peak(c.user.sentimentHistory));
        OpQueuesTurn(r, finish);
        OpQueuesTurn(Do(r, finish), Close);
      case Write(ok) => OpQueuesTurn(r, Drain(ok));
    }
  }

  lemma {:induction false} TurnsFollowTheCall(c: Call, events: seq<CallEvent>)
    requires c.record.session.Some? && Happens(c, events)
    ensures TurnsOf(Outcome(c, events).record.sent) == TurnsOf(c.record.sent) + Spoken(events)
    decreases |events|
  {
    if events != [] {
      TurnIsQueued(c, events[0]);
      TurnsFollowTheCall(Happen(c, events[0]), events[1..]);
    }
  }

  lemma {:induction false} SpokenBeforeShutdown(talk: seq<CallEvent>)
    ensures Spoken(talk + [Shutdown]) == Spoken(talk)
  {
    if talk == [] {
      assert talk + [Shutdown] == [Shutdown] && [Shutdown][1..] == [];
    } else {
      assert (talk + [Shutdown])[0] == talk[0] && (talk + [Shutdown])[1..] == talk[1..] + [Shutdown];
      SpokenBeforeShutdown(talk[1..]);
    }
  }

  /** The stored turns are those of the list the record repeats. */
  lemma RecordedTurns(said: Call, stored: seq<Item>)
    requires IsRecordOf(said, stored)
    ensures StoredTurns(stored) == TurnsOf(said.record.sent)
  {
    var n := |stored|;
    var sent := said.record.sent;
    assert sent == sent[..n] + [sent[n]];
    TurnsOfExtend(sent[..n], sent[n]);
    StoredTurnsAreTurns(sent[..n], stored);
  }

  /** The stored items are the record of the call as it was when it ended: every item queued up to the
      finish, the samples of the whole history, and last the finish with the peak of that history. */
  ghost predicate IsRecordOf(said: Call, stored: seq<Item>) {
    && |stored| + 1 == |said.record.sent| && said.record.sent[|stored|] == None
    && (forall i :: 0 <= i < |stored| ==> said.record.sent[i] == Some(stored[i]))
    && SampleScores(stored) == said.user.sentimentHistory
    && stored != [] && stored[|stored| - 1].SessionFinish?
    && stored[|stored| - 1].maxFrustration == Peak(SampleScores(stored))
    && (forall i :: 0 <= i < |stored| && stored[i].Sentiment? ==>
          (stored[i].mood in {Angry, NegativeLabel} <==> Session.Negative(stored[i].score)))
  }

  /** Neither the finish nor the sentinel is queued yet. */
  ghost predicate Talking(c: Call) {
    c.record.draining
    && forall p :: 0 <= p < |c.record.sent| ==> c.record.sent[p].Some? && !c.record.sent[p].value.SessionFinish?
  }

  lemma TalkingStep(c: Call, e: CallEvent)
    requires Talking(c) && InOrder(c.record) && c.record.session.Some? && CanHappen(c, e) && !e.Shutdown?
    ensures Talking(Happen(c, e))
  {
    if e.Write? {
      assert c.record.queue[0] == c.record.sent[|c.record.fates|];
    }
  }

  lemma {:induction false} TalkingAlways(c: Call, talk: seq<CallEvent>)
    requires CallOk(c) && Talking(c) && Happens(c, talk)
    requires forall i :: 0 <= i < |talk| ==> Smooth(talk[i]) && !talk[i].Shutdown?
    ensures CallOk(Outcome(c, talk)) && Talking(Outcome(c, talk))
    decreases |talk|
  {
    if talk != [] {
      TalkingStep(c, talk[0]);
      HappenOk(c, talk[0]);
      TalkingAlways(Happen(c, talk[0]), talk[1..]);
    }
  }

  lemma {:induction false} HappensSplits(c: Call, a: seq<CallEvent>, b: seq<CallEvent>)
    requires Happens(c, a + b)
    ensures Happens(c, a) && Happens(Outcome(c, a), b) && Outcome(c, a + b) == Outcome(Outcome(c, a), b)
    decreases |a|
  {
    if a == [] {
      assert a + b == b;
    } else {
      assert (a + b)[0] == a[0] && (a + b)[1..] == a[1..] + b;
      HappensSplits(Happen(c, a[0]), a[1..], b);
    }
  }

  lemma {:induction false} SentGrows(c: Call, events: seq<CallEvent>)
    requires Happens(c, events)
    ensures c.record.sent <= Outcome(c, events).record.sent
    decreases |events|
  {
    if events != [] {
      SentGrows(Happen(c, events[0]), events[1..]);
    }
  }

  /** The first sentinel is the one that the shutdown queues behind the finish. */
  lemma ShutdownQueues(c: Call)
    requires CallOk(c) && Talking(c)
    ensures var said := Happen(c, Shutdown);
            var n := |said.record.sent| - 1;
            && n > 0 && said.record.sent[n] == None && None !in said.record.sent[..n]
            && said.record.sent[n - 1] == Some(SessionFinish(c.record.session.value, Peak(c.user.sentimentHistory)))
            && said.user == c.user && Scores(said.record.sent[..n]) == c.user.sentimentHistory
  {
    var finish := SessionFinish(c.record.session.value, Peak(c.user.sentimentHistory));
    var said := Happen(c, Shutdown);
    assert said.record.sent == c.record.sent + [Some(finish)] + [None];
    assert said.record.sent[..|c.record.sent| + 1] == c.record.sent + [Some(finish)];
    ScoresExtend(c.record.sent, Some(finish));
  }

  lemma StoredIsRecordOf(said: Call, done: Call, finish: Item)
    requires CallOk(done) && !done.record.draining && said.record.sent <= done.record.sent
    requires var n := |said.record.sent| - 1;
             && n > 0 && said.record.sent[n] == None && None !in said.record.sent[..n]
             && said.record.sent[n - 1] == Some(finish) && finish.SessionFinish?
             && finish.maxFrustration == Peak(said.user.sentimentHistory)
             && Scores(said.record.sent[..n]) == said.user.sentimentHistory
    ensures IsRecordOf(said, done.record.stored)
  {
    var n, stored := |said.record.sent| - 1, done.record.stored;
    EndedRecordAgrees(done);
    assert done.record.sent[..n] == said.record.sent[..n] && done.record.sent[n] == None;
    SentinelBounds(done.record.sent, n);
    assert |stored| == n;
    assert forall i :: 0 <= i < n ==> said.record.sent[..n][i] == done.record.sent[i] == Some(stored[i]);
    SampleScoresAreScores(said.record.sent[..n], stored);
    MoodsAgree(done.record, stored);
  }

  lemma MoodsAgree(r: Record, stored: seq<Item>)
    requires SentOk(r) && |stored| <= |r.sent| && forall i :: 0 <= i < |stored| ==> r.sent[i] == Some(stored[i])
    ensures forall i :: 0 <= i < |stored| && stored[i].Sentiment? ==>
              (stored[i].mood in {Angry, NegativeLabel} <==> Session.Negative(stored[i].score))
  {
    forall i | 0 <= i < |stored| && stored[i].Sentiment?
      ensures stored[i].mood in {Angry, NegativeLabel} <==> Session.Negative(stored[i].score)
    {
      assert ItemOk(r.sent, i);
      LabelAgreesWithTheCounter(stored[i].score);
    }
  }

  lemma EndedCallIsRecorded(c: Call, rest: seq<CallEvent>)
    requires CallOk(c) && Talking(c) && Happens(Happen(c, Shutdown), rest)
    requires forall i :: 0 <= i < |rest| ==> Smooth(rest[i])
    requires !Outcome(Happen(c, Shutdown), rest).record.draining
    ensures IsRecordOf(Happen(c, Shutdown), Outcome(Happen(c, Shutdown), rest).record.stored)
  {
    var said := Happen(c, Shutdown);
    ShutdownQueues(c);
    HappenOk(c, Shutdown);
    CallOkAlways(said, rest);
    SentGrows(said, rest);
    StoredIsRecordOf(said, Outcome(said, rest), SessionFinish(c.record.session.value, Peak(c.user.sentimentHistory)));
  }

  lemma OneEvent(c: Call, e: CallEvent)
    requires Happens(c, [e])
    ensures CanHappen(c, e) && Outcome(c, [e]) == Happen(c, e)
  {
    assert [e][1..] == [] && Outcome(Happen(c, e), []) == Happen(c, e);
  }

  lemma RunOfACall(start: Call, talk: seq<CallEvent>, rest: seq<CallEvent>)
    requires Happens(start, talk + [Shutdown] + rest)
    ensures Happens(start, talk) && Happens(start, talk + [Shutdown])
    ensures Outcome(start, talk + [Shutdown]) == Happen(Outcome(start, talk), Shutdown)
    ensures Happens(Happen(Outcome(start, talk), Shutdown), rest)
    ensures Outcome(start, talk + [Shutdown] + rest) == Outcome(Happen(Outcome(start, talk), Shutdown), rest)
  {
    HappensSplits(start, talk + [Shutdown], rest);
    HappensSplits(start, talk, [Shutdown]);
    OneEvent(Outcome(start, talk), Shutdown);
  }

  lemma TalkedCallIsOk(id: nat, user: string, customer: Option<Session.Customer>, talk: seq<CallEvent>)
    requires Happens(Opened(id, user, customer), talk)
    requires forall i :: 0 <= i < |talk| ==> Smooth(talk[i]) && !talk[i].Shutdown?
    ensures CallOk(Outcome(Opened(id, user, customer), talk)) && Talking(Outcome(Opened(id, user, customer), talk))
  {
    OpenedIsOk(id, user, customer);
    TalkingAlways(Opened(id, user, customer), talk);
  }

  /** The record agrees with the session: in a call that talks, is ended once and is then drained to the
      end, with a scorer that answers and a database that takes the writes, what is stored is the record of
      the call as it ended, whatever turns are still scored afterwards. */
  lemma RecordAgreesWithSession(id: nat, user: string, customer: Option<Session.Customer>, talk: seq<CallEvent>,
                                rest: seq<CallEvent>)
    requires Happens(Opened(id, user, customer), talk + [Shutdown] + rest)
    requires forall i :: 0 <= i < |talk| ==> Smooth(talk[i]) && !talk[i].Shutdown?
    requires forall i :: 0 <= i < |rest| ==> Smooth(rest[i])
    requires !Outcome(Opened(id, user, customer), talk + [Shutdown] + rest).record.draining
    ensures Happens(Opened(id, user, customer), talk + [Shutdown])
    ensures IsRecordOf(Outcome(Opened(id, user, customer), talk + [Shutdown]),
                       Outcome(Opened(id, user, customer), talk + [Shutdown] + rest).record.stored)
    ensures StoredTurns(Outcome(Opened(id, user, customer), talk + [Shutdown] + rest).record.stored) == Spoken(talk)
  {
    var start := Opened(id, user, customer);
    RunOfACall(start, talk, rest);
    TalkedCallIsOk(id, user, customer, talk);
    EndedCallIsRecorded(Outcome(start, talk), rest);
    RecordedTurns(Outcome(start, talk + [Shutdown]), Outcome(start, talk + [Shutdown] + rest).record.stored);
    TurnsOfOpened(id, user, customer);
    TurnsFollowTheCall(start, talk + [Shutdown]);
    SpokenBeforeShutdown(talk);
  }

  lemma TurnsOfOpened(id: nat, user: string, customer: Option<Session.Customer>)
    ensures Opened(id, user, customer).record.session.Some? && TurnsOf(Opened(id, user, customer).record.sent) == []
  {
    assert Opened(id, user, customer).record.sent == [] + [Some(SessionStart(id))];
    TurnsOfExtend([], Some(SessionStart(id)));
  }

  lemma {:induction false} ScoresPrefix(items: seq<Option<Item>>, n: nat)
    requires n <= |items|
    ensures Scores(items[..n]) <= Scores(items)
    decreases |items|
  {
    if n < |items| {
      assert items[..|items| - 1][..n] == items[..n];
      ScoresPrefix(items[..|items| - 1], n);
    } else {
      assert items[..n] == items;
    }
  }

  /** The label stored for a turn is a negative one exactly when the turn counts as negative in the
      session. */
  lemma LabelAgreesWithTheCounter(score: real)
    ensures SentimentLabel(score) in {Angry, NegativeLabel} <==> Session.Negative(score)
  {
  }

  /** With the lexical scorer a turn is stored as angry, positive or neutral, exactly by its words: angry for
      a negative word, positive for a positive word and no negative one, neutral for neither. */
  lemma LabelOfWords(lexicon: Session.Lexicon, text: string)
    ensures SentimentLabel(Session.LexicalScore(lexicon, text)) ==
            if Session.AnyIn(lexicon.negative, text) then Angry
            else if Session.AnyIn(lexicon.positive, text) then Positive else Neutral
  {
  }

  /** The labels of any scorer: each has its own interval of scores. */
  lemma LabelIntervals(score: real)
    ensures var mood := SentimentLabel(score);
            && (mood == Angry <==> score <= -0.7) && (mood == NegativeLabel <==> -0.7 < score <= -0.35)
            && (mood == Neutral <==> -0.35 < score < 0.35) && (mood == Positive <==> 0.35 <= score)
  {
  }

  /** The peak is the least number that is not negative and bounds the negation of every score. */
  lemma {:induction false} LeastIsLeast(history: seq<real>)
    requires history != []
    ensures Least(history) in history && forall x :: x in history ==> Least(history) <= x
  {
    if |history| > 1 {
      LeastIsLeast(history[1..]);
      assert forall x :: x in history ==> x == history[0] || x in history[1..];
    }
  }

  lemma PeakIsLeastBound(history: seq<real>)
    ensures Peak(history) >= 0.0 && forall x :: x in history ==> -x <= Peak(history)
    ensures Peak(history) == 0.0 || -Peak(history) in history
  {
    if history != [] {
      LeastIsLeast(history);
    }
  }
}
