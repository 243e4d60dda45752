/** The conversation writer: enqueue and forget on the voice path, one drain task that writes. Its
    durable record against the state of the session. */
module Conversation {
  import opened Domain
  import opened Masker

  datatype Speaker = Caller | Agent
  datatype Label = Angry | NegativeLabel | Positive | Neutral

  datatype Item =
    | SessionStart(session: nat)
    | Turn(session: nat, index: nat, speaker: Speaker, transcript: Glyphs)
    | Sentiment(session: nat, index: nat, score: real, mood: Label)
    | Escalation(session: nat)
    | Callback(session: nat)
    | ConsentDecision(session: nat, granted: bool)
    | SessionFinish(session: nat, maxFrustration: real)

  function SentimentLabel(score: real): Label {
    if score <= -0.7 then Angry
    else if score <= -0.35 then NegativeLabel
    else if score >= 0.35 then Positive
    else Neutral
  }

  /** The sentinel is None. `sent` is everything ever queued and `fates` whether each drained item was
      written; `stored` is what the database holds, in the order of the writes. */
  datatype Record = Record(
    session: Option<nat>,
    turnIndex: nat,
    queue: seq<Option<Item>>,
    draining: bool,
    stored: seq<Item>,
    sent: seq<Option<Item>>,
    fates: seq<bool>)

  const BLANK := Record(None, 0, [], true, [], [], [])

  datatype Op =
    | StartSession(id: nat)
    | RecordTurn(speaker: Speaker, text: Glyphs)
    | RecordSentiment(score: real)
    | RecordEscalation
    | RecordCallback
    | RecordConsent(granted: bool)
    | FinishSession(maxFrustration: real)
    | Close
    | Drain(ok: bool)

  function Enqueue(r: Record, item: Option<Item>): Record {
    r.(queue := r.queue + [item], sent := r.sent + [item])
  }

  /** What a write needs to leave a trace: the call row is there (a foreign key, and for a finish the row
      to update), and a turn is unique by session, index and speaker. */
  predicate Fits(stored: seq<Item>, item: Item) {
    && (item.SessionStart? || SessionStart(item.session) in stored)
    && (item.Turn? ==> !TurnStored(stored, item))
  }

  predicate TurnStored(stored: seq<Item>, turn: Item)
    requires turn.Turn?
  {
    exists i :: 0 <= i < |stored| && stored[i].Turn? && stored[i].session == turn.session
                && stored[i].index == turn.index && stored[i].speaker == turn.speaker
  }

  /** One turn of the drain loop; `ok` is whether the database takes the write. */
  function Drained(r: Record, ok: bool): Record
    requires r.queue != []
  {
    var item := r.queue[0];
    if item.None? then r.(queue := r.queue[1..], draining := false)
    else
      var written := ok && Fits(r.stored, item.value);
      r.(queue := r.queue[1..],
         stored := if written then r.stored + [item.value] else r.stored,
         fates := r.fates + [written])
  }

  predicate Possible(r: Record, op: Op) {
    op.Drain? ==> r.draining && r.queue != []
  }

  function Do(r: Record, op: Op): Record
    requires Possible(r, op)
  {
    match op
    case StartSession(id) => Enqueue(r.(session := Some(id)), Some(SessionStart(id)))
    case Close => Enqueue(r, None)
    case Drain(ok) => Drained(r, ok)
    case RecordTurn(speaker, text) =>
      if r.session.None? then r
      else Enqueue(r.(turnIndex := r.turnIndex + 1),
                   Some(Turn(r.session.value, r.turnIndex + 1, speaker, Mask(text))))
    case RecordSentiment(score) =>
      if r.session.None? then r
      else Enqueue(r, Some(Sentiment(r.session.value, r.turnIndex, score, SentimentLabel(score))))
    case RecordEscalation => if r.session.None? then r else Enqueue(r, Some(Escalation(r.session.value)))
    case RecordCallback => if r.session.None? then r else Enqueue(r, Some(Callback(r.session.value)))
    case RecordConsent(granted) =>
      if r.session.None? then r else Enqueue(r, Some(ConsentDecision(r.session.value, granted)))
    case FinishSession(peak) => if r.session.None? then r else Enqueue(r, Some(SessionFinish(r.session.value, peak)))
  }

  ghost predicate Runs(r: Record, ops: seq<Op>)
    decreases |ops|
  {
    ops != [] ==> Possible(r, ops[0]) && Runs(Do(r, ops[0]), ops[1..])
  }

  ghost function Final(r: Record, ops: seq<Op>): Record
    requires Runs(r, ops)
    decreases |ops|
  {
    if ops == [] then r else Final(Do(r, ops[0]), ops[1..])
  }

  // ---------- the object ----------

  class ConversationWriter {
    var queue: seq<Option<Item>>
    var draining: bool
    var sessionDbId: Option<nat>
    var turnIndex: nat
    var stored: seq<Item>
    ghost var sent: seq<Option<Item>>
    ghost var fates: seq<bool>

    ghost function View(): Record
      reads this
    {
      Record(sessionDbId, turnIndex, queue, draining, stored, sent, fates)
    }

    constructor ()
      ensures View() == BLANK
    {
      queue, draining, sessionDbId, turnIndex, stored, sent, fates := [], true, None, 0, [], [], [];
    }

    method Put(item: Option<Item>)
      modifies this
      ensures View() == Enqueue(old(View()), item)
    {
      queue := queue + [item];
      sent := sent + [item];
    }

    method Start(id: nat)
      modifies this
      ensures View() == Do(old(View()), StartSession(id))
    {
      sessionDbId := Some(id);
      Put(Some(SessionStart(id)));
    }

    method AddTurn(speaker: Speaker, text: Glyphs)
      modifies this
      ensures View() == Do(old(View()), RecordTurn(speaker, text))
    {
      if sessionDbId.None? {
        return;
      }
      turnIndex := turnIndex + 1;
      Put(Some(Turn(sessionDbId.value, turnIndex, speaker, Mask(text))));
    }

    method AddSentiment(score: real)
      modifies this
      ensures View() == Do(old(View()), RecordSentiment(score))
    {
      if sessionDbId.Some? {
        Put(Some(Sentiment(sessionDbId.value, turnIndex, score, SentimentLabel(score))));
      }
    }

    method Finish(maxFrustration: real)
      modifies this
      ensures View() == Do(old(View()), FinishSession(maxFrustration))
    {
      if sessionDbId.Some? {
        Put(Some(SessionFinish(sessionDbId.value, maxFrustration)));
      }
    }

    method CloseQueue()
      modifies this
      ensures View() == Do(old(View()), Close)
    {
      Put(None);
    }

    /** The drain loop over what is queued, given which writes the database takes; it ends at the
        sentinel. */
    method DrainLoop(oks: seq<bool>)
      requires draining && None in queue
      modifies this
      ensures View() == DrainAll(old(View()), oks) && !draining
    {
      var taken := 0;
      ghost var start := View();
      assert oks[0..] == oks;
      while draining
        invariant draining ==> None in queue
        invariant taken <= |oks|
        invariant DrainAll(View(), oks[taken..]) == DrainAll(start, oks)
        decreases draining, |queue|
      {
        var ok := taken < |oks| ==> oks[taken];
        var item := queue[0];
        if item.None? {
          draining := false;
        } else {
          var written := ok && Fits(stored, item.value);
          if written {
            stored := stored + [item.value];
          }
          fates := fates + [written];
        }
        queue := queue[1..];
        taken := if taken < |oks| then taken + 1 else taken;
      }
    }
  }

  /** The drain loop as steps: writes beyond those listed succeed. */
  ghost function DrainAll(r: Record, oks: seq<bool>): Record
    decreases |r.queue|
  {
    if !r.draining || r.queue == [] then r
    else DrainAll(Drained(r, oks != [] ==> oks[0]), if oks == [] then [] else oks[1..])
  }

  // ---------- first in, first out, with losses ----------

  /** The items of a list that were written. */
  ghost function Kept(items: seq<Option<Item>>, fates: seq<bool>): seq<Item>
    requires |items| == |fates| && None !in items
  {
    if items == [] then [] else
    var n := |items| - 1;
    Kept(items[..n], fates[..n]) + if fates[n] then [items[n].value] else []
  }

  /** What has been drained so far, without the sentinel. */
  ghost predicate InOrder(r: Record) {
    var d := |r.fates|;
    && d <= |r.sent| && None !in r.sent[..d]
    && r.stored == Kept(r.sent[..d], r.fates)
    && (r.draining ==> r.queue == r.sent[d..])
    && (!r.draining ==> d < |r.sent| && r.sent[d] == None)
  }

  lemma KeptExtend(items: seq<Option<Item>>, fates: seq<bool>, item: Option<Item>, fate: bool)
    requires |items| == |fates| && None !in items && item.Some?
    ensures Kept(items + [item], fates + [fate]) == Kept(items, fates) + if fate then [item.value] else []
  {
    assert (items + [item])[..|items|] == items && (fates + [fate])[..|items|] == fates;
  }

  lemma InOrderEnqueue(r: Record, item: Option<Item>)
    requires InOrder(r)
    ensures InOrder(Enqueue(r, item))
  {
    assert Enqueue(r, item).sent[..|r.fates|] == r.sent[..|r.fates|];
  }

  lemma InOrderDrain(r: Record, ok: bool)
    requires InOrder(r) && r.draining && r.queue != []
    ensures InOrder(Drained(r, ok))
  {
    var d := |r.fates|;
    assert r.queue[0] == r.sent[d] && r.queue[1..] == r.sent[d + 1..];
    if r.queue[0].Some? {
      var written := ok && Fits(r.stored, r.queue[0].value);
      KeptExtend(r.sent[..d], r.fates, r.queue[0], written);
      assert r.sent[..d + 1] == r.sent[..d] + [r.queue[0]];
    }
  }

  lemma InOrderStep(r: Record, op: Op)
    requires InOrder(r) && Possible(r, op)
    ensures InOrder(Do(r, op))
  {
    var r' := Do(r, op);
    if op.Drain? {
      InOrderDrain(r, op.ok);
    } else if r' != r {
      var item := r'.sent[|r.sent|];
      InOrderEnqueue(r, item);
      assert r'.queue == Enqueue(r, item).queue && r'.sent == Enqueue(r, item).sent;
    }
  }

  lemma {:induction false} InOrderAlways(r: Record, ops: seq<Op>)
    requires InOrder(r) && Runs(r, ops)
    ensures InOrder(Final(r, ops))
    decreases |ops|
  {
    if ops != [] {
      InOrderStep(r, ops[0]);
      InOrderAlways(Do(r, ops[0]), ops[1..]);
    }
  }

  /** Where the first sentinel is, or the length. */
  ghost function FirstSentinel(items: seq<Option<Item>>): nat {
    if items == [] || items[0].None? then 0 else 1 + FirstSentinel(items[1..])
  }

  lemma {:induction false} SentinelBounds(items: seq<Option<Item>>, n: nat)
    requires n <= |items| && None !in items[..n]
    ensures n <= FirstSentinel(items) <= |items|
    ensures n < |items| && items[n].None? ==> FirstSentinel(items) == n
  {
    if items != [] {
      if n > 0 {
        assert items[..n][0] == items[0] && items[1..][..n - 1] == items[..n][1..];
        SentinelBounds(items[1..], n - 1);
      } else if items[0].Some? {
        assert items[1..][..0] == [];
        SentinelBounds(items[1..], 0);
      }
    }
  }

  // ---------- what is queued is what was said ----------

  /** The item is what the call of the writer asks to be stored. */
  ghost predicate Queues(op: Op, item: Option<Item>) {
    match op
    case StartSession(id) => item == Some(SessionStart(id))
    case RecordTurn(speaker, text) =>
      item.Some? && item.value.Turn? && item.value.speaker == speaker && item.value.transcript == Mask(text)
    case RecordSentiment(score) => item.Some? && item.value.Sentiment? && item.value.score == score
    case RecordEscalation => item.Some? && item.value.Escalation?
    case RecordCallback => item.Some? && item.value.Callback?
    case RecordConsent(granted) => item.Some? && item.value.ConsentDecision? && item.value.granted == granted
    case FinishSession(peak) => item.Some? && item.value.SessionFinish? && item.value.maxFrustration == peak
    case Close => item == None
    case Drain(_) => false
  }

  /** The calls that queue something: all but those made before a session is started. */
  ghost function Heard(started: bool, ops: seq<Op>): seq<Op>
    decreases |ops|
  {
    if ops == [] then [] else
    (if !ops[0].Drain? && (started || ops[0].StartSession? || ops[0].Close?) then [ops[0]] else [])
    + Heard(started || ops[0].StartSession?, ops[1..])
  }

  /** What is ever queued is, one by one and in order, what the calls of the writer asked for: every turn under
      its own speaker, with the mask of its own text. */
  lemma {:induction false} QueueFollowsTheCalls(r: Record, ops: seq<Op>)
    requires Runs(r, ops)
    ensures var heard, sent := Heard(r.session.Some?, ops), Final(r, ops).sent;
            && r.sent <= sent && |sent| == |r.sent| + |heard|
            && forall i :: 0 <= i < |heard| ==> Queues(heard[i], sent[|r.sent| + i])
    decreases |ops|
  {
    if ops != [] {
      var next := Do(r, ops[0]);
      QueueFollowsTheCalls(next, ops[1..]);
      var heard, sent := Heard(r.session.Some?, ops), Final(r, ops).sent;
      OneCallQueues(r, ops[0]);
      assert next.sent[|r.sent|..] == sent[|r.sent|..|next.sent|];
      forall i | 0 <= i < |heard| ensures Queues(heard[i], sent[|r.sent| + i]) {
        if |next.sent| > |r.sent| {
          assert i > 0 ==> heard[i] == Heard(next.session.Some?, ops[1..])[i - 1];
          assert i == 0 ==> sent[|r.sent|] == next.sent[|r.sent|];
        }
      }
    }
  }

  lemma OneCallQueues(r: Record, op: Op)
    requires Possible(r, op)
    ensures var next := Do(r, op);
            && r.sent <= next.sent && (next.session.Some? <==> r.session.Some? || op.StartSession?)
            && if !op.Drain? && (r.session.Some? || op.StartSession? || op.Close?)
               then |next.sent| == |r.sent| + 1 && Queues(op, next.sent[|r.sent|])
               else next.sent == r.sent
  {
  }

  // ---------- the tables stay consistent, whatever writes fail ----------

  /** Every stored row comes after the row of its session, and no two turns share index and speaker. */
  ghost predicate Consistent(stored: seq<Item>) {
    forall i :: 0 <= i < |stored| ==>
      && (!stored[i].SessionStart? ==> SessionStart(stored[i].session) in stored[..i])
      && (stored[i].Turn? ==>
            forall j :: 0 <= j < i && stored[j].Turn? ==>
              stored[j].session != stored[i].session || stored[j].index != stored[i].index
              || stored[j].speaker != stored[i].speaker)
  }

  lemma ConsistentStep(r: Record, op: Op)
    requires Consistent(r.stored) && Possible(r, op)
    ensures Consistent(Do(r, op).stored)
  {
    var stored, after := r.stored, Do(r, op).stored;
    if after != stored {
      assert after[..|stored|] == stored;
      forall i | 0 <= i < |stored| ensures after[..i] == stored[..i] && after[i] == stored[i] {
      }
    }
  }

  lemma {:induction false} StoredIsConsistent(r: Record, ops: seq<Op>)
    requires Consistent(r.stored) && Runs(r, ops)
    ensures Consistent(Final(r, ops).stored)
    decreases |ops|
  {
    if ops != [] {
      ConsistentStep(r, ops[0]);
      StoredIsConsistent(Do(r, ops[0]), ops[1..]);
    }
  }

  // ---------- first in, first out, with losses ----------

  /** For any interleaving of enqueues and drain steps with any failing writes: what is stored is, in
      order, the written part of a prefix of what was queued that ends at or before the first
      sentinel; when the drain has ended the prefix is all that came before the sentinel. */
  lemma FirstInFirstOut(ops: seq<Op>)
    requires Runs(BLANK, ops)
    ensures var r := Final(BLANK, ops);
            var d := |r.fates|;
            && d <= FirstSentinel(r.sent) <= |r.sent| && None !in r.sent[..d]
            && r.stored == Kept(r.sent[..d], r.fates)
            && (!r.draining ==> d == FirstSentinel(r.sent))
  {
    InOrderAlways(BLANK, ops);
    var r := Final(BLANK, ops);
    SentinelBounds(r.sent, |r.fates|);
  }
}
