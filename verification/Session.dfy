/** The state of one call session: identity, sentiment, clarifications and idempotency keys. */
module Session {
  import opened Domain

  datatype Customer = Customer(
    id: string,
    subscription: Option<string>,
    isVip: bool,
    fraudSuspected: bool,
    accountAgeDays: int)

  /** `openGates` counts the identity checks whose task is under way. */
  datatype State = State(
    id: string,
    customer: Option<Customer>,
    identityVerified: bool,
    identityAttempts: nat,
    openGates: nat,
    sentimentHistory: seq<real>,
    consecutiveNegativeTurns: nat,
    shouldOfferEscalation: bool,
    clarificationAttempts: nat,
    keys: map<Action, Key>)

  function NewSession(id: string, customer: Option<Customer>): State {
    State(id, customer, false, 0, 0, [], 0, false, 0, map[])
  }

  const NEGATIVE_THRESHOLD := -0.35
  const OFFER_AFTER := 2
  const MAX_ATTEMPTS := 3

  datatype Event =
    | Scored(value: real)
    | Clarified
    | GateOpened
    | GateClosed(answers: seq<bool>)
    | Keyed(action: Action, newKey: Key)

  /** How the verification task ends when the checks of the caller's answers come out like this:
      verified at the first success, failed at the third failure, still open otherwise. */
  function TaskOutcome(answers: seq<bool>): Option<bool> {
    if true in Asked(answers) then Some(true) else if |Asked(answers)| == MAX_ATTEMPTS then Some(false) else None
  }

  function Asked(answers: seq<bool>): seq<bool> {
    if |answers| < MAX_ATTEMPTS then answers else answers[..MAX_ATTEMPTS]
  }

  function AfterScore(s: State, value: real): State {
    var negatives := if value <= NEGATIVE_THRESHOLD then s.consecutiveNegativeTurns + 1 else 0;
    s.(sentimentHistory := s.sentimentHistory + [value],
       consecutiveNegativeTurns := negatives,
       shouldOfferEscalation := negatives >= OFFER_AFTER)
  }

  /** The gate lets a verified caller through and turns an unresolved one away; otherwise its task starts. */
  predicate Asks(s: State) {
    !s.identityVerified && s.customer.Some?
  }

  function AfterGateOpened(s: State): State {
    if Asks(s) then s.(openGates := s.openGates + 1) else s
  }

  /** What the gate assigns when its task ends, whatever has happened in the meantime. */
  function AfterGateClosed(s: State, answers: seq<bool>): State {
    if s.openGates == 0 then s else
    match TaskOutcome(answers)
    case Some(verified) =>
      s.(identityVerified := verified, identityAttempts := s.identityAttempts + 1, openGates := s.openGates - 1)
    case None => s
  }

  /** A gate from its call to the end of its task, with nothing in between. */
  function ThroughGate(s: State, answers: seq<bool>): State {
    if Asks(s) then AfterGateClosed(AfterGateOpened(s), answers) else s
  }

  function WithKey(s: State, action: Action, newKey: Key): State {
    if action in s.keys then s else s.(keys := s.keys[action := newKey])
  }

  function Step(s: State, e: Event): State {
    match e
    case Scored(value) => AfterScore(s, value)
    case Clarified => s.(clarificationAttempts := s.clarificationAttempts + 1)
    case GateOpened => AfterGateOpened(s)
    case GateClosed(answers) => AfterGateClosed(s, answers)
    case Keyed(action, newKey) => WithKey(s, action, newKey)
  }

  function Run(s: State, events: seq<Event>): State {
    if events == [] then s else Step(Run(s, events[..|events| - 1]), events[|events| - 1])
  }

  // ---------- the objects the worker mutates ----------

  datatype Lexicon = Lexicon(negative: seq<string>, positive: seq<string>)

  predicate Contains(text: string, word: string) {
    exists i :: 0 <= i <= |text| && word <= text[i..]
  }

  predicate AnyIn(words: seq<string>, text: string) {
    exists w :: w in words && Contains(text, w)
  }

  function LexicalScore(lexicon: Lexicon, text: string): (value: real)
    ensures value <= NEGATIVE_THRESHOLD <==> AnyIn(lexicon.negative, text)
  {
    if AnyIn(lexicon.negative, text) then -1.0 else if AnyIn(lexicon.positive, text) then 0.5 else 0.0
  }

  class IdentityVerificationTask {
    var attempts: nat
    var result: Option<bool>

    constructor ()
      ensures attempts == 0 && result == None
    {
      attempts := 0;
      result := None;
    }

    method VerifyWithKnownElement(matches: bool)
      modifies this
      ensures attempts == old(attempts) + 1
      ensures result == if matches then Some(true)
                        else if attempts >= MAX_ATTEMPTS then Some(false) else old(result)
    {
      attempts := attempts + 1;
      if matches {
        result := Some(true);
      } else if attempts >= MAX_ATTEMPTS {
        result := Some(false);
      }
    }
  }

  class SessionUserData {
    const id: string
    const customer: Option<Customer>
    var identityVerified: bool
    var identityAttempts: nat
    var openGates: nat
    var sentimentHistory: seq<real>
    var consecutiveNegativeTurns: nat
    var shouldOfferEscalation: bool
    var clarificationAttempts: nat
    var keys: map<Action, Key>

    function Read(): State
      reads this
    {
      State(id, customer, identityVerified, identityAttempts, openGates, sentimentHistory,
            consecutiveNegativeTurns, shouldOfferEscalation, clarificationAttempts, keys)
    }

    constructor (id: string, customer: Option<Customer>)
      ensures Read() == NewSession(id, customer)
    {
      this.id := id;
      this.customer := customer;
      identityVerified := false;
      identityAttempts := 0;
      openGates := 0;
      sentimentHistory := [];
      consecutiveNegativeTurns := 0;
      shouldOfferEscalation := false;
      clarificationAttempts := 0;
      keys := map[];
    }

    /** `transcript` is in lower case. */
    method Score(lexicon: Lexicon, transcript: string) returns (value: real)
      modifies this
      ensures value == LexicalScore(lexicon, transcript)
      ensures Read() == Step(old(Read()), Scored(value))
    {
      value := LexicalScore(lexicon, transcript);
      sentimentHistory := sentimentHistory + [value];
      if value <= NEGATIVE_THRESHOLD {
        consecutiveNegativeTurns := consecutiveNegativeTurns + 1;
      } else {
        consecutiveNegativeTurns := 0;
      }
      shouldOfferEscalation := consecutiveNegativeTurns >= OFFER_AFTER;
    }

    method RequestClarification() returns (escalate: bool)
      modifies this
      ensures Read() == Step(old(Read()), Clarified)
      ensures escalate <==> Read().clarificationAttempts >= 2
    {
      clarificationAttempts := clarificationAttempts + 1;
      escalate := clarificationAttempts >= 2;
    }

    method NewIdempotencyKey(action: Action, newKey: Key) returns (key: Key)
      modifies this
      ensures Read() == Step(old(Read()), Keyed(action, newKey))
      ensures action in keys && key == keys[action]
    {
      if action !in keys {
        keys := keys[action := newKey];
      }
      key := keys[action];
    }

    /** The gate in front of a sensitive tool. `answers` are the outcomes of the checks of what the
        caller says, for as long as the task listens; None while it is still listening. */
    method EnsureIdentityVerified(answers: seq<bool>) returns (verified: Option<bool>)
      modifies this
      ensures Read() == ThroughGate(old(Read()), answers)
      ensures old(customer.None? && !identityVerified) ==> verified == Some(false) && Read() == old(Read())
      ensures verified.Some? ==> verified.value == identityVerified
      ensures verified.None? <==> !old(identityVerified) && customer.Some? && TaskOutcome(answers).None?
    {
      if identityVerified {
        return Some(true);
      }
      if customer.None? {
        return Some(false);
      }
      openGates := openGates + 1;
      ghost var asking := Read();
      var task := new IdentityVerificationTask();
      var heard := 0;
      while heard < |answers| && task.result.None?
        invariant heard == task.attempts <= |answers| && heard <= MAX_ATTEMPTS
        invariant task.result.None? ==> heard < MAX_ATTEMPTS && forall i :: 0 <= i < heard ==> !answers[i]
        invariant task.result.Some? ==> TaskOutcome(answers) == task.result
        invariant Read() == asking
        modifies task
      {
        task.VerifyWithKnownElement(answers[heard]);
        heard := heard + 1;
      }
      if task.result.None? {
        return None;
      }
      openGates := openGates - 1;
      identityVerified := task.result.value;
      identityAttempts := identityAttempts + 1;
      verified := Some(identityVerified);
    }
  }

  // ---------- the running counters refine the history ----------

  predicate Negative(value: real) { value <= NEGATIVE_THRESHOLD }

  /** `n` is the length of the longest all-negative suffix. */
  ghost predicate IsStreak(history: seq<real>, n: nat) {
    && n <= |history|
    && (forall i :: |history| - n <= i < |history| ==> Negative(history[i]))
    && (n < |history| ==> !Negative(history[|history| - n - 1]))
  }

  ghost predicate LastAreNegative(history: seq<real>, n: nat) {
    n <= |history| && forall i :: |history| - n <= i < |history| ==> Negative(history[i])
  }

  lemma StreakExtends(history: seq<real>, n: nat, value: real)
    requires IsStreak(history, n)
    ensures IsStreak(history + [value], if Negative(value) then n + 1 else 0)
  {
  }

  ghost predicate CountsStreak(s: State) {
    IsStreak(s.sentimentHistory, s.consecutiveNegativeTurns)
    && (s.shouldOfferEscalation <==> s.consecutiveNegativeTurns >= OFFER_AFTER)
  }

  lemma CountsStreakStep(s: State, e: Event)
    requires CountsStreak(s)
    ensures CountsStreak(Step(s, e))
  {
    if e.Scored? {
      StreakExtends(s.sentimentHistory, s.consecutiveNegativeTurns, e.value);
    }
  }

  lemma {:induction false} CounterIsStreak(id: string, customer: Option<Customer>, events: seq<Event>)
    ensures var s := Run(NewSession(id, customer), events);
            && IsStreak(s.sentimentHistory, s.consecutiveNegativeTurns)
            && (s.shouldOfferEscalation <==> s.consecutiveNegativeTurns >= OFFER_AFTER)
  {
    if events != [] {
      CounterIsStreak(id, customer, events[..|events| - 1]);
      CountsStreakStep(Run(NewSession(id, customer), events[..|events| - 1]), events[|events| - 1]);
    }
  }

  lemma StreakAtLeast(history: seq<real>, n: nat, k: nat)
    requires IsStreak(history, n)
    ensures n >= k <==> LastAreNegative(history, k)
  {
    if n < k && n < |history| {
      assert !Negative(history[|history| - n - 1]);
    }
  }

  /** Escalation is offered exactly when the last two scored turns are negative, and the policy sees
      frustration exactly when the last three are, after any sequence of session events. */
  lemma CountersReadTheHistory(id: string, customer: Option<Customer>, events: seq<Event>)
    ensures var s := Run(NewSession(id, customer), events);
            && (s.shouldOfferEscalation <==> LastAreNegative(s.sentimentHistory, 2))
            && (s.consecutiveNegativeTurns >= 3 <==> LastAreNegative(s.sentimentHistory, 3))
  {
    var s := Run(NewSession(id, customer), events);
    CounterIsStreak(id, customer, events);
    StreakAtLeast(s.sentimentHistory, s.consecutiveNegativeTurns, 2);
    StreakAtLeast(s.sentimentHistory, s.consecutiveNegativeTurns, 3);
  }

  // ---------- clarifications ----------

  ghost function Clarifications(events: seq<Event>): nat {
    if events == [] then 0
    else Clarifications(events[..|events| - 1]) + if events[|events| - 1].Clarified? then 1 else 0
  }

  /** Every clarification is counted, and nothing else. */
  lemma {:induction false} ClarificationsAreCounted(id: string, customer: Option<Customer>, events: seq<Event>)
    ensures Run(NewSession(id, customer), events).clarificationAttempts == Clarifications(events)
  {
    if events != [] {
      ClarificationsAreCounted(id, customer, events[..|events| - 1]);
    }
  }

  // ---------- identity accounting ----------

  /** The failed answers a task hears before it ends. */
  ghost function FailuresHeard(asked: seq<bool>): nat {
    if asked == [] || asked[0] then 0 else 1 + FailuresHeard(asked[1..])
  }

  /** The event ends a task. */
  predicate Ends(s: State, e: Event) {
    e.GateClosed? && s.openGates > 0 && TaskOutcome(e.answers).Some?
  }

  /** The failed answers of all the tasks that have ended. */
  ghost function Failures(s: State, events: seq<Event>): nat {
    if events == [] then 0 else
    var front, last := events[..|events| - 1], events[|events| - 1];
    Failures(s, front) + if Ends(Run(s, front), last) then FailuresHeard(Asked(last.answers)) else 0
  }

  /** No gate opens a task while another is under way. */
  ghost predicate OneGateAtATime(s: State, events: seq<Event>) {
    events != [] ==>
      var front, last := events[..|events| - 1], events[|events| - 1];
      OneGateAtATime(s, front) && (last.GateOpened? ==> Run(s, front).openGates == 0)
  }

  lemma {:induction false} FailuresBeforeSuccess(asked: seq<bool>)
    ensures if true in asked then FailuresHeard(asked) < |asked| else FailuresHeard(asked) == |asked|
  {
    if asked != [] && !asked[0] {
      FailuresBeforeSuccess(asked[1..]);
    }
  }

  /** With one gate at a time, an unverified session has heard exactly three failed answers for each
      attempt, and a verified one at most two more than three for each earlier attempt. */
  lemma {:induction false} IdentityAccounting(id: string, customer: Option<Customer>, events: seq<Event>)
    requires OneGateAtATime(NewSession(id, customer), events)
    ensures var s0 := NewSession(id, customer);
            var s, failures := Run(s0, events), Failures(s0, events);
            && (!s.identityVerified ==> failures == 3 * s.identityAttempts)
            && (s.identityVerified ==>
                  s.identityAttempts >= 1 && s.openGates == 0
                  && 3 * (s.identityAttempts - 1) <= failures <= 3 * (s.identityAttempts - 1) + 2)
            && s.openGates <= 1
  {
    if events != [] {
      IdentityAccounting(id, customer, events[..|events| - 1]);
      if events[|events| - 1].GateClosed? {
        FailuresBeforeSuccess(Asked(events[|events| - 1].answers));
      }
    }
  }

  ghost predicate StaysVerified(s: State) {
    forall events :: Run(s, events).identityVerified
  }

  /** Verification, once given, is kept whatever happens next exactly when no task is under way: a task
      that began before and fails takes it back. */
  lemma VerificationIsSafeExactlyWhen(s: State)
    requires s.identityVerified
    ensures StaysVerified(s) <==> s.openGates == 0
  {
    if s.openGates == 0 {
      forall events ensures Run(s, events).identityVerified {
        VerifiedStays(s, events);
      }
    } else {
      var fails := [GateClosed([false, false, false])];
      assert fails[..0] == [] && Run(s, []) == s;
      assert Run(s, fails) == Step(s, fails[0]);
      assert !Run(s, fails).identityVerified;
    }
  }

  lemma {:induction false} VerifiedStays(s: State, events: seq<Event>)
    requires s.identityVerified && s.openGates == 0
    ensures Run(s, events).identityVerified && Run(s, events).openGates == 0
  {
    if events != [] {
      VerifiedStays(s, events[..|events| - 1]);
    }
  }

  /** With one gate at a time verification is never lost. */
  lemma {:induction false} VerificationIsNeverLost(id: string, customer: Option<Customer>, events: seq<Event>, n: nat)
    requires OneGateAtATime(NewSession(id, customer), events) && n <= |events|
    requires Run(NewSession(id, customer), events[..n]).identityVerified
    ensures Run(NewSession(id, customer), events).identityVerified
    decreases |events|
  {
    if n < |events| {
      var front := events[..|events| - 1];
      assert front[..n] == events[..n];
      VerificationIsNeverLost(id, customer, front, n);
      IdentityAccounting(id, customer, front);
    } else {
      assert events[..n] == events;
    }
  }

  /** A caller who is not resolved is not verified and has no verification under way. */
  ghost predicate Resolved(s: State) {
    s.customer.None? ==> !s.identityVerified && s.identityAttempts == 0 && s.openGates == 0
  }

  lemma ResolvedStep(s: State, e: Event)
    requires Resolved(s)
    ensures Resolved(Step(s, e))
  {
  }

  /** No sequence of events verifies an unresolved caller, or books an attempt. */
  lemma {:induction false} UnresolvedIsNeverVerified(id: string, events: seq<Event>)
    ensures var s := Run(NewSession(id, None), events);
            s.customer.None? && !s.identityVerified && s.identityAttempts == 0 && s.openGates == 0
  {
    if events != [] {
      UnresolvedIsNeverVerified(id, events[..|events| - 1]);
    }
  }

  /** Two overlapping gates: the second fails after the first has verified the caller. */
  lemma OverlappingGatesExample(id: string, customer: Customer)
    ensures var events := [GateOpened, GateOpened, GateClosed([true]), GateClosed([false, false, false])];
            && Run(NewSession(id, Some(customer)), events[..3]).identityVerified
            && !Run(NewSession(id, Some(customer)), events).identityVerified
  {
    var events := [GateOpened, GateOpened, GateClosed([true]), GateClosed([false, false, false])];
    var s0 := NewSession(id, Some(customer));
    assert events[..3][..2] == events[..2] && events[..2][..1] == events[..1] && events[..1][..0] == [];
    assert Run(s0, []) == s0;
    assert Run(s0, events[..1]) == Step(s0, GateOpened);
    assert Run(s0, events[..2]) == Step(Run(s0, events[..1]), GateOpened);
    assert true in Asked([true]) by {
      assert [true][0];
    }
    assert Run(s0, events[..3]) == Step(Run(s0, events[..2]), GateClosed([true]));
  }

  /** Only the end of a task can take verification back; counters of attempts never go back, keys are
      never replaced. */
  lemma StepKeeps(s: State, e: Event)
    ensures var s' := Step(s, e);
            && s'.id == s.id && s'.customer == s.customer
            && (s.identityVerified && !Ends(s, e) ==> s'.identityVerified)
            && s.clarificationAttempts <= s'.clarificationAttempts
            && s.identityAttempts <= s'.identityAttempts
            && (forall a :: a in s.keys ==> a in s'.keys && s'.keys[a] == s.keys[a])
            && (!e.Keyed? ==> s'.keys == s.keys)
  {
  }
}
