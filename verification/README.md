# Guarded actions: ledger, audit chain, policy and conversation record

This project models the safety core of a telecom voice-agent platform in Dafny and proves what that core is
for. Check it with `dafny verify dfyconfig.toml`.

A caller talks to a voice worker. A sensitive request (a payment, a deferral, a plan change, a SIM unblock)
goes through one façade: the session state is assembled into a context, the decision service gives a
confidence, the policy service judges the context and persists its verdict, and only an AUTHORIZED verdict
leads to the execution service, which dispatches the action to an outside adapter under an idempotency key.
Verdicts, executions, consents and retention runs all append to one hash-chained audit ledger. Next to this
the worker writes a masked record of the conversation, which a retention job later purges.

## How the model is built

- `Store` is the database as a step machine. Every service call is one transaction, cut where another can come
  in between: lookup, flush, integrity-error rollback and second lookup, dispatch, audit lock, reading the
  head, appending, projection in its savepoint, commit, abort at any point. Readers see committed tables only
  (READ COMMITTED); a flush waits while an unfinished transaction holds the same unique key; the audit lock
  lasts until the end of its transaction; sequence numbers are never given back.
- `StoreInvariant`, `StoreChain`, `Linearizability`: the invariant of every step; `LedgerTheorems` and
  `Progress`: what follows for every run.
- `InMemory` is the in-memory execution service of phase 7, the sequential specification of the above.
- `Platform` adds sessions and tool calls to the store: any number of sessions, each with any number of tool
  calls under way, service outages, lost requests and responses, retries and background transactions, in any
  interleaving. `PlatformInvariant` and `PlatformTheorems` prove the end-to-end guarantees.
- `Services` is the service code itself, as imperative methods that run against the machine while a given
  schedule of other transactions interferes at every point. Each method is proved to be a legal run of the
  machine, so the theorems about runs are about this code.
- `AuditChain`, `PolicyEngine`, `GuardedAction`, `Session`: the ledger, the rules, the façade, the session.
- `Masker`: the three regular expressions as declarative match relations, the greedy scanners, leftmost
  substitution, and the outbound guard. `Amounts`: what they do to a decimal amount inside a text;
  `Placeholders`: what they put in the place of what they find.
- `Scenarios`: runs from the initial state that carry calls through and show the failing cases.
- `Conversation` and `CallRecord`: the writer's queue with its sentinel and lossy drain, and what the stored
  record says about the session. `Retention` and `ObjectStorage`: the purge and the recording URLs. `Archive`:
  many writers and retention runs over the same tables.

Python objects whose methods update fields are classes here (`AuditLedger`, `IdempotencyStore`,
`ExecutionService`, `SessionUserData`, `IdentityVerificationTask`, `ConversationWriter`, `RetentionJob`,
`MinioStore`), each proved against a function on values about which the lemmas speak.

## Where the code and its documentation differ

The model follows the code. In these places a comment or docstring promises something else; the exact
condition is proved as an if-and-only-if.

- `verify_chain` says that any retroactive edit breaks the chain. Editing an entry before the last is caught
  exactly when the hashed record changes (`EditBeforeTheHeadIsCaught`); the last entry can be rewritten freely
  as long as it is resealed (`EditOfTheHeadIsNotCaught`, `LastEntryCanBeRewritten`), since no later entry
  contradicts it, and so can any suffix (`ResealedSuffixIsNotCaught`); the session and the event type are not
  hashed at all (`UnhashedFieldsAreFree`). What does hold is that the head hash commits to everything before it
  (`HeadCommitsToHistory`).
- The masker says that decimal amounts are left alone. An amount in a text is copied exactly when both its digit
  runs are shorter than four, the run of digits, spaces and dashes on each side of its dot is shorter than eight
  from its first digit to its last once the e-mails are masked, and no e-mail match reaches it
  (`AmountSurvives`); "1234.5" and "20 30 10 42.500" are not (`LongAmountExample`, `SwallowedAmountExample`).
- The façade promises to execute against the verdict that authorized the action. The payload is laid over the
  context that is judged, so a field of the session, the action among them, is judged as it is exactly when the
  payload does not override it (`JudgedFieldIsSessionField`, `OverrideExample`). No tool's payload does
  (`ToolContextIsFaithful`).
- The identity gate assigns the outcome of its task whatever has happened since it began. Verification is kept
  in every continuation exactly when no task is under way as it is given (`VerificationIsSafeExactlyWhen`,
  `OverlappingGatesExample`); with one gate at a time it is never lost (`VerificationIsNeverLost`).
- The execution service says that an action is dispatched exactly once per key. A dispatch comes before the
  commit, so an aborted transaction wastes one, any number of times (`DispatchesAreUnbounded`,
  `AnyNumberOfDispatches`); the exact number is `DispatchBound`.
- The key comment says that a retry under the same key is safe. It is, but the key is the same for every payload
  of an action: what a repeated call asked was done exactly when the committed row carries its payload
  (`DoneExactlyWhen`, `RepeatIsDoneExactlyWhen`, `RepeatedPaymentExample`).
- Deleting a recording by its URL removes the key that was put if and only if the endpoint and the bucket have
  different names (`DeleteUndoesPut`, `SameNameExample`).
- The identity check inside the SIM rule never answers (`SimIdentityRuleIsShadowed`).

## Model

| member | source | states |
|---|---|---|
| AuditChain.VerifyChain | packages/audit-trail/src/audit_trail/ledger.py:54-63 | the verifier's loop answers true exactly for sealed entries linked in one line from genesis |
| AuditChain.IntactExtend | packages/audit-trail/src/audit_trail/ledger.py:45-51 | appending keeps a chain intact exactly when the new entry is sealed and links to the head |
| AuditChain.DigestInputSplitsUniquely | packages/audit-trail/src/audit_trail/ledger.py:38-42 | equal digest inputs have the same previous hash, payload text and timestamp: no ambiguity from the separator |
| AuditChain.HeadCommitsToHistory | packages/audit-trail/src/audit_trail/ledger.py:38-63 | two verified chains of any lengths with the same head hash agree entry by entry, when no two of the texts hashed for them collide |
| AuditChain.DifferentHistoryDifferentHead | packages/audit-trail/src/audit_trail/ledger.py:38-63 | so an edit, insertion or truncation that passes verification still changes the head hash |
| AuditChain.IdealDigestsExist | packages/audit-trail/src/audit_trail/ledger.py:38-42 | the assumption about the digest is met: for any three payloads there is a digest ideal on a chain of two entries and on a sealed edit of the first |
| AuditChain.EditBeforeTheHeadIsCaught | packages/audit-trail/src/audit_trail/ledger.py:54-63 | replacing an entry that is not the last passes verification if and only if its hashed record is unchanged, when the texts hashed do not collide |
| AuditChain.EditOfTheHeadIsNotCaught | packages/audit-trail/src/audit_trail/ledger.py:54-63 | replacing the last entry passes verification if and only if the new one is sealed and keeps the link |
| AuditChain.LastEntryCanBeRewritten | packages/audit-trail/src/audit_trail/ledger.py:54-63 | the failing case: any payload and timestamp can stand in for those of the last entry and the chain still verifies |
| AuditChain.TailIsAcceptedExactlyWhen | packages/audit-trail/src/audit_trail/ledger.py:54-63 | what follows a verified beginning passes if and only if it is chained from its head hash; cutting entries off the end always passes |
| AuditChain.ResealedSuffixIsNotCaught | packages/audit-trail/src/audit_trail/ledger.py:54-63 | from any index on a chain can be rewritten with any contents, resealed, and passes |
| AuditChain.UnhashedFieldsAreFree | packages/audit-trail/src/audit_trail/ledger.py:38-63 | changing sessions and event types anywhere never changes the verifier's answer |
| AuditChain.AuditLedger.Append | packages/audit-trail/src/audit_trail/ledger.py:73-77 | the memoised hash is always the head of the chain, and the new entry is chained to it and added last |
| AuditChain.AuditLedger.Verify | packages/audit-trail/src/audit_trail/ledger.py:79-80 | true of every ledger built by appending, and only of intact ones |
| PolicyEngine.AuthorizedExactlyWhen | services/policy-service/src/policy_service/engine.py:32-46 | AUTHORIZED if and only if no escalation trigger holds, a sensitive action has a verified identity, and payment and deferral limits are kept |
| PolicyEngine.RefusedExactlyWhen | services/policy-service/src/policy_service/engine.py:32-46 | REFUSED if and only if no trigger holds, the identity is verified, and the payment is unconfirmed or the account too young or over its yearly cap |
| PolicyEngine.RuleIdGivenWhen | services/policy-service/src/policy_service/engine.py:32-46 | which rule id each verdict carries, the precedence of the triggers included |
| PolicyEngine.RuleOrderIsIrrelevant | services/policy-service/src/policy_service/engine.py:29-44 | the first-match chain of action rules answers the same in every order of the rules |
| PolicyEngine.SimIdentityRuleIsShadowed | services/policy-service/src/policy_service/rules/sim.py:13-14 | the engine never answers with the SIM rule's own identity check |
| Session.SessionUserData.Score | apps/agent-worker/src/sentiment/sentiment_scorer.py:40-54 | scoring a transcript makes one Scored step of the session state with the lexical value |
| Session.LexicalScore | apps/agent-worker/src/sentiment/sentiment_scorer.py:41-44 | the value counts as negative exactly when a negative word occurs, whatever positive words do |
| Session.CounterIsStreak | apps/agent-worker/src/sentiment/sentiment_scorer.py:46-53 | after any events the running counter is the length of the longest all-negative suffix of the history |
| Session.CountersReadTheHistory | apps/agent-worker/src/sentiment/sentiment_scorer.py:46-53 | escalation is offered exactly when the last two scored turns are negative, and the counter reaches three exactly when the last three are |
| GuardedAction.FrustrationIsThreeNegativeTurns | apps/agent-worker/src/tools/guarded_action.py:23-36 | after any events of a session policy is told of frustration exactly when the last three scored turns are negative |
| Session.ClarificationsAreCounted | apps/agent-worker/src/tools/clarification_tools.py:19-21 | after any events the counter is the number of clarifications asked |
| Session.SessionUserData.RequestClarification | apps/agent-worker/src/tools/clarification_tools.py:19-27 | one more attempt is counted; the outcome is to escalate exactly from the second on |
| Session.SessionUserData.NewIdempotencyKey | apps/agent-worker/src/session/session_state.py:37-42 | the key of a session and action is made once and returned ever after |
| Session.IdentityVerificationTask.VerifyWithKnownElement | apps/agent-worker/src/tasks/identity_verification_task.py:48-55 | an answer is counted; a match verifies, the third failure fails, otherwise the task stays open |
| Session.SessionUserData.EnsureIdentityVerified | apps/agent-worker/src/tools/guards.py:19-37 | the gate over any sequence of answers: an unresolved caller is turned away and nothing changes; otherwise the first success within three verifies, three failures fail, and one attempt is booked when the task ends |
| Session.UnresolvedIsNeverVerified | apps/agent-worker/src/tools/guards.py:26-28 | no sequence of events verifies an unresolved caller or books an attempt |
| Session.IdentityAccounting | apps/agent-worker/src/tools/guards.py:23-37 | with one gate at a time an unverified session has heard exactly three failures per attempt, a verified one at most two more than three per earlier attempt |
| Session.VerificationIsNeverLost | apps/agent-worker/src/tools/guards.py:23-37 | with one gate at a time verification, once given, holds in every continuation |
| Session.VerificationIsSafeExactlyWhen | apps/agent-worker/src/tools/guards.py:34-37 | verification holds in every continuation if and only if no verification task is under way when it is given |
| Session.OverlappingGatesExample | apps/agent-worker/src/tools/guards.py:34 | the failing case: of two overlapping gates the second fails after the first has verified the caller |
| Session.StepKeeps | apps/agent-worker/src/session/session_state.py:15-42 | nothing but the end of a verification task takes verification back; no event lowers an attempt counter or replaces an idempotency key |
| GuardedAction.JudgedFieldIsSessionField | apps/agent-worker/src/tools/guarded_action.py:29-43 | each of the eleven session fields is judged as it is, the action as the one executed, if and only if the payload does not override it |
| GuardedAction.OverrideExample | apps/agent-worker/src/tools/guarded_action.py:42 | the failing case: a payload with an identity flag of its own is judged by that flag in every session |
| GuardedAction.ToolContextIsFaithful | apps/agent-worker/src/agents/billing_agent.py:29-56 | for every tool and every session, what policy parses is the session's own state and the tool's own arguments |
| GuardedAction.ExecuteGuardedAction | apps/agent-worker/src/tools/guarded_action.py:46-76 | for any answers and outages of the three services a request leaves exactly when confidence and a persisted AUTHORIZED verdict allow it, with the session's key and context; the outcome says executed exactly when a response came back |
| Masker.MatchEndIsLongest | packages/pii-shield/src/pii_shield/masker.py:11-15 | the greedy scanners find a match exactly where the pattern has one, and the longest |
| Masker.AnchoredOutputIsCopied | packages/pii-shield/src/pii_shield/masker.py:21-24 | a stretch of output with a digit or an at sign and no bracket was copied in one piece from the input |
| Masker.SubKeepsAbsent | packages/pii-shield/src/pii_shield/masker.py:21-24 | a later substitution does not bring back what an earlier one removed |
| Masker.SubRemoves | packages/pii-shield/src/pii_shield/masker.py:11-23 | after the e-mail or phone substitution no e-mail or phone match is left |
| Masker.IdRunRemovesFourDigits | packages/pii-shield/src/pii_shield/masker.py:13-24 | after the identifier substitution no four digits stand in a row |
| Masker.MaskedIsClean | packages/pii-shield/src/pii_shield/masker.py:21-24 | every masked text has no e-mail, no phone number and no four digits in a row |
| Masker.FixedPointsAreClean | packages/pii-shield/src/pii_shield/masker.py:19-24 | masking leaves a text alone if and only if nothing matchable is in it |
| Masker.MaskIsIdempotent | packages/pii-shield/src/pii_shield/masker.py:19-24 | masking twice is masking once |
| Placeholders.EmailIsReplaced | packages/pii-shield/src/pii_shield/masker.py:12-21 | an e-mail set off between clean texts masks to [EMAIL] between the same texts |
| Placeholders.PhoneIsReplaced | packages/pii-shield/src/pii_shield/masker.py:11-22 | a phone number set off between clean texts masks to [PHONE] between the same texts |
| Placeholders.IdentifierIsReplaced | packages/pii-shield/src/pii_shield/masker.py:15-23 | a run of four digits or more that is no phone number masks to [ID] |
| Masker.LoneAmountSurvives | packages/pii-shield/src/pii_shield/masker.py:13-15 | a text that is nothing but a decimal amount is left alone if and only if both its digit runs are shorter than four |
| Masker.LongAmountExample | packages/pii-shield/src/pii_shield/masker.py:13-15 | the failing case: 1234.5 is not left alone |
| Amounts.AmountSurvives | packages/pii-shield/src/pii_shield/masker.py:11-24 | an amount anywhere in a text is copied if and only if no e-mail match reaches it, the run of digits, spaces and dashes on either side of the dot is shorter than eight from its first digit to its last once the e-mails are masked, and both sides have fewer than four digits |
| Amounts.ReachedExactlyWhen | packages/pii-shield/src/pii_shield/masker.py:12-21 | an e-mail match from before takes the amount if and only if the text before it has a live at sign with nothing but domain glyphs behind it |
| Amounts.LiveIsVisited | packages/pii-shield/src/pii_shield/masker.py:12-21 | an at sign is live, as read off the text alone, if and only if the leftmost scan comes to a local part that ends at it |
| Amounts.SurvivingAmountSplits | packages/pii-shield/src/pii_shield/masker.py:19-24 | around a surviving amount the text is masked as its two sides are alone |
| Amounts.AmountSurvivesInPlainText | packages/pii-shield/src/pii_shield/masker.py:11-24 | without an at sign in the text the condition is about the runs around the amount alone |
| Amounts.SwallowedAmountExample | packages/pii-shield/src/pii_shield/masker.py:11 | the failing case: in "20 30 10 42.500" both digit runs are short and the phone pattern takes "20 30 10 42" |
| Masker.CheckOutbound | services/policy-service/src/policy_service/rules/outbound.py:8-15 | refuses exactly the texts that contain a whole word of eight to twelve digits |
| Placeholders.NumbersThatAreRefused | services/policy-service/src/policy_service/rules/outbound.py:8-15 | of the numbers alone exactly those of eight to twelve digits are refused |
| Masker.MaskedPassesTheGuard | services/policy-service/src/policy_service/rules/outbound.py:11-15 | every masked text is AUTHORIZED by the outbound guard |
| InMemory.ExecutionService.Execute | patches/phase-7-changed-files/services/execution-service/src/execution_service/service.py:22-45 | one call of the sequential specification: a known key is replayed and nothing is audited, a new one is stored and audited |
| Store.ByKey | services/execution-service/src/execution_service/service.py:80-81 | finds a row of the key, and none exactly when no row has it |
| StoreChain.ProjectionIsComplete | services/execution-service/src/execution_service/projections.py:51-163 | every action leaves exactly the rows of its kind when there is the account or line they need, each carrying the action's key, reference or verdict, and none otherwise |
| StoreChain.EffectsOkStep | services/execution-service/src/execution_service/service.py:69-75 | every step keeps: the domain tables hold the rows of exactly the actions whose savepoint was released, in order |
| LedgerTheorems.ProjectedActionsHaveTheirEffects | services/execution-service/src/execution_service/service.py:69-77 | in every reachable state each committed action whose projection succeeded has all its rows in the tables |
| LedgerTheorems.ProjectionIsSettled | services/execution-service/src/execution_service/service.py:71-75 | whether the projection succeeded is settled by the savepoint and by nothing after it |
| StoreInvariant.KeysOkStep | services/execution-service/src/execution_service/service.py:50-58 | every step keeps: a key has one committed row, or one unfinished transaction that holds it, or neither |
| StoreInvariant.LockOkStep | packages/audit-trail/src/audit_trail/ledger.py:98-120 | every step keeps: the audit lock is with the one transaction between its acquisition and its end |
| StoreInvariant.RowsOkStep | services/execution-service/src/execution_service/service.py:60-77 | every step keeps: committed rows have succeeded, cite a persisted verdict and belong one to one to committed transactions |
| StoreChain.SeqOrderIsCommitOrder | packages/audit-trail/src/audit_trail/ledger.py:126-134 | reading a table with increasing sequence numbers in their order gives the order of the commits |
| StoreChain.InSeqOrderSorts | packages/audit-trail/src/audit_trail/ledger.py:126 | reading by sequence number sorts the rows of any table and keeps every one of them |
| StoreChain.ChainOkStep | packages/audit-trail/src/audit_trail/ledger.py:98-120 | every step keeps: the committed entries form one chain with increasing sequence numbers and the lock holder has read its head |
| StoreChain.BooksOkStep | services/policy-service/src/policy_service/service.py:45-65 | every step keeps rows and audit entries in one-to-one correspondence, in order |
| StoreChain.EveryEffectHasItsAction | services/execution-service/src/execution_service/projections.py:71-163 | every domain row traces back to a committed action with its key, reference or verdict and the customer, line and amount of its request |
| Linearizability.InvStep | services/execution-service/src/execution_service/service.py:32-87 | every step of every transaction keeps the whole invariant, the agreement with the in-memory service included |
| LedgerTheorems.Linearizable | services/execution-service/src/execution_service/service.py:32-87 | for every interleaving, responses, key-to-reference map and order of audited executions are those of the in-memory service called once per answer |
| LedgerTheorems.AnswersFollowRealTime | services/execution-service/src/execution_service/service.py:32-87 | the order of the answers respects calls that do not overlap, and no finished call is answered again |
| LedgerTheorems.EveryCallThatGotThroughIsAnsweredOnce | services/execution-service/src/execution_service/service.py:32-87 | in every reachable state each execution that committed or was replayed has exactly one answer, and nothing else has one |
| LedgerTheorems.ReplayReturnsTheFirstAnswer | services/execution-service/src/execution_service/service.py:34-36 | an answer is a replay exactly when its key was answered before, and then it gives the reference and action first returned |
| LedgerTheorems.ChainAlwaysVerifies | packages/audit-trail/src/audit_trail/ledger.py:122-134 | in every reachable state the chain verifies and sequence order is commit order, whatever gaps aborts leave |
| LedgerTheorems.VerifyTable | packages/audit-trail/src/audit_trail/ledger.py:122-134 | verification of the table answers whether its entries in sequence order are an intact chain |
| LedgerTheorems.SameHeadSameLedger | packages/audit-trail/src/audit_trail/ledger.py:98-134 | two reachable tables with the same head hash hold the same records |
| LedgerTheorems.RowsAndEntriesCorrespond | services/execution-service/src/execution_service/service.py:60-77 | in every reachable state action, verdict and consent rows match their audit entries one to one, projections are all or nothing, and every projected row is the effect of an action row |
| Progress.DispatchBound | services/execution-service/src/execution_service/service.py:50-77 | the dispatch calls of a key, answered or not, are exactly those of transactions aborted after making one, plus one if its action is committed or under way |
| Progress.DispatchesAreUnbounded | services/execution-service/src/execution_service/service.py:50-77 | the failing case: once an action can be tried, for every number there is a run that dispatches it that many times and leaves it uncommitted |
| Scenarios.AnyNumberOfDispatches | services/execution-service/src/execution_service/service.py:50-77 | the same from the initial state, for every request |
| Progress.CommittedIsNeverDispatchedAgain | services/execution-service/src/execution_service/service.py:34-58 | once a key is committed no continuation dispatches it |
| Progress.SomeStepIsEnabled | services/execution-service/src/execution_service/service.py:50-77 | deadlock freedom: while a transaction is unfinished, some transaction's own next step is enabled |
| Progress.RunsAreBounded | services/execution-service/src/execution_service/service.py:32-78 | a run without new calls is no longer than the work the transactions have left |
| Progress.EveryCallCanFinish | services/execution-service/src/execution_service/service.py:32-78 | from every reachable state all transactions can be brought to their end by their own steps |
| Services.Append | packages/audit-trail/src/audit_trail/ledger.py:98-120 | the append code with other transactions at every point: it waits only for another transaction that holds the lock; otherwise the row links to the head of the committed chain and the lock is held |
| Services.AwaitLock | packages/audit-trail/src/audit_trail/ledger.py:101 | the wait lets the others take their turns for exactly as long as the lock is held |
| Services.Execute | services/execution-service/src/execution_service/service.py:32-87 | the execute code with other transactions at every point is a run of the machine: answered means committed with the adapter's reference and the projection's outcome, or replayed; it raises only for a failed dispatch, a failed commit or a missing verdict; it waits only for another transaction that holds the key or the audit lock, so alone it never waits |
| Services.InsertAction | services/execution-service/src/execution_service/service.py:38-58 | the flush waits only while another transaction holds the key; a lost race is answered as a replay, an integrity error is raised only when the verdict is missing |
| Services.AwaitKey | services/execution-service/src/execution_service/service.py:50-52 | the wait lets the others take their turns for exactly as long as the key is held |
| Services.Perform | services/execution-service/src/execution_service/service.py:60-78 | the adapter is called; answered exactly when the transaction is committed, with the adapter's reference and the projection's outcome; waiting only for the audit lock of another |
| Services.JudgeAction | services/policy-service/src/policy_service/service.py:27-65 | the verdict that comes back is the engine's and its row is persisted; only a failed commit raises, it waits only for the audit lock of another, and alone it never waits |
| Services.AuditAndCommit | services/policy-service/src/policy_service/service.py:59-65 | a policy or retention transaction that commits leaves exactly its own audit entry as the last one, behind all that was there and all committed meanwhile; it waits only for the audit lock of another |
| PlatformTheorems.StoreRunOf | apps/agent-worker/src/clients/execution_client.py:33-52 | whatever sessions, outages and lost responses do to the store is a legal run of its transactions |
| PlatformTheorems.BackgroundIsAlwaysPossible | apps/agent-worker/src/conversation/writer.py:77-89 | consents, retention runs and outbound verdicts can begin beside any calls, so the theorems about runs include them |
| PlatformTheorems.DecidingIsTheFacade | apps/agent-worker/src/tools/guarded_action.py:48-55 | a call of the platform stops at the confidence test exactly as the façade does, or asks policy about the session as it stands |
| PlatformTheorems.DecisionStopsOnlyOutages | services/decision-service/src/decision_service/scorer.py:33-42 | at any threshold up to 0.6, the default 0.5 among them, a tool call reaches policy exactly when the decision service answers |
| PlatformTheorems.OutagesEscalate | apps/agent-worker/src/clients/policy_client.py:26-34 | a decision or verdict that does not arrive escalates the call |
| PlatformTheorems.RulingIsTheFacade | apps/agent-worker/src/tools/guarded_action.py:55-76 | a verdict that arrives or is lost takes the call to the façade's outcome for the same answers, or to the same request under the session's key |
| PlatformTheorems.ReportingIsTheFacade | apps/agent-worker/src/clients/execution_client.py:33-52 | a result that arrives or is lost is reported as the façade reports it |
| PlatformInvariant.WorldOkStep | apps/agent-worker/src/tools/guarded_action.py:46-76 | every step of the platform keeps the invariant of sessions, verdicts, grants and calls |
| PlatformTheorems.EveryActionWasAuthorized | apps/agent-worker/src/tools/guarded_action.py:55-76 | every committed action cites a persisted AUTHORIZED verdict for the same action, session and resolved customer, on a verified identity without triggers, and for a payment confirmed and within the cap |
| PlatformTheorems.ToolIsAuthorizedExactlyWhen | services/policy-service/src/policy_service/engine.py:32-46 | policy authorizes a tool call if and only if the caller is resolved, verified, no VIP and not suspected, has fewer than two clarifications and not three negative turns in a row, and the tool's own amounts and confirmation are within the rules |
| PlatformTheorems.ReasonForATool | services/policy-service/src/policy_service/rules/mandatory_escalation.py:10-22 | the rule id a tool call gets, in terms of the session's own history and the tool's own arguments |
| PlatformTheorems.OnlyAllowedCallsAct | apps/agent-worker/src/tools/guarded_action.py:46-76 | in every reachable state only such calls act |
| PlatformTheorems.FrustrationEscalates | services/policy-service/src/policy_service/rules/mandatory_escalation.py:16-17 | a tool called when the last three scored turns are negative does not act in any continuation |
| PlatformTheorems.WhatEachToolDoes | services/execution-service/src/execution_service/projections.py:51-163 | the domain rows of each tool's request: the amount paid, a plan over the unpaid amount, the amount topped up, the SIM case, the provisioning with the plan asked for |
| PlatformTheorems.ExecutedOutcomeIsTrue | apps/agent-worker/src/clients/execution_client.py:48-52 | the worker reports an execution only when a committed row of that session and action carries the reference and, unless it was a replay, the call's own payload under a persisted verdict on its own context |
| PlatformTheorems.DoneExactlyWhen | apps/agent-worker/src/session/session_state.py:37-42 | what a reported call asked was done if and only if the one committed row of its session and action carries its payload; without a replay it was |
| PlatformTheorems.RepeatIsDoneExactlyWhen | apps/agent-worker/src/session/session_state.py:37-42 | once an action is committed, every call of it reported later in any continuation gives that row's reference and was done if and only if it asks for that row's payload |
| Scenarios.RepeatedPaymentExample | apps/agent-worker/src/agents/billing_agent.py:29-34 | the failing case, run from the start: payments of 50 and then 100 in one call are both told as executed with one reference, and 100 is recorded nowhere |
| PlatformTheorems.OneRowPerSessionAndAction | apps/agent-worker/src/session/session_state.py:37-42 | over any run with retries a session has at most one committed row per action |
| PlatformTheorems.PaymentBound | services/policy-service/src/policy_service/rules/payment.py:7-19 | the total captured in a session never exceeds the payment cap |
| PlatformTheorems.EscalationIsAbsorbing | services/policy-service/src/policy_service/rules/mandatory_escalation.py:10-22 | after two clarifications, or for a VIP or fraud-flagged caller, no tool call started later executes in any continuation |
| Scenarios.CallGoesThrough | apps/agent-worker/src/tools/guarded_action.py:46-76 | from every calm state each call that policy authorizes is carried through by the code alone to a committed action, or to the replay of the one committed under its key |
| Conversation.ConversationWriter.AddTurn | apps/agent-worker/src/conversation/writer.py:124-137 | a turn is numbered, masked and queued last; without a session nothing happens |
| Conversation.ConversationWriter.AddSentiment | apps/agent-worker/src/conversation/writer.py:139-148 | a sample is queued under the current turn index |
| Conversation.ConversationWriter.Finish | apps/agent-worker/src/conversation/writer.py:192-206 | the end of the call is queued with its peak frustration |
| Conversation.ConversationWriter.DrainLoop | apps/agent-worker/src/conversation/writer.py:47-57 | the loop ends at the sentinel and makes exactly the drain steps, whichever writes fail |
| Conversation.FirstInFirstOut | apps/agent-worker/src/conversation/writer.py:47-57 | for any interleaving and failures the stored items are, in order, the written part of what was queued before the sentinel |
| Conversation.QueueFollowsTheCalls | apps/agent-worker/src/conversation/writer.py:124-209 | what is ever queued is, one by one and in order, what the calls of the writer asked for: every turn under its own speaker with the mask of its own text |
| Conversation.StoredIsConsistent | apps/agent-worker/src/conversation/writer.py:59-102 | whatever writes fail, every stored row comes after the row of its session and no two turns share index and speaker |
| CallRecord.UniqueConstraintNeverFires | packages/persistence/src/persistence/models/conversation.py:64-71 | turn indices follow the queue and samples carry the index of the turn before them, so no turn is ever refused as a duplicate |
| CallRecord.NothingLostWhileUp | apps/agent-worker/src/conversation/writer.py:59-102 | while the database takes the writes the stored items are item by item the queued ones as far as the drain has come, and all before the sentinel when it has ended |
| CallRecord.StoredExactlyWhen | apps/agent-worker/src/conversation/writer.py:47-57 | a drained item is stored if and only if the database takes its own write and has taken the one of its session: losing a write loses nothing else |
| CallRecord.StoredTranscriptsAreMasked | apps/agent-worker/src/conversation/writer.py:124-137 | every stored transcript is a mask output, has nothing matchable and passes the outbound guard |
| CallRecord.RecordAgreesWithSession | apps/agent-worker/src/agents/base_agent.py:47-61 | a call that talks, ends once and drains to its end without failures leaves exactly the items queued up to its finish: their sample scores are the session's whole sentiment history at the end, its turns are the masks of what the caller said, turn by turn, the last item is the finish with the peak of those scores, and a stored label is negative exactly when the session counts the turn as negative |
| CallRecord.EndedRecordIsAPrefix | apps/agent-worker/src/server.py:76-82 | whatever is scored or ended again afterwards, the stored scores are a prefix of the history and a stored finish is last and carries their peak |
| CallRecord.PeakIsLeastBound | apps/agent-worker/src/server.py:76-82 | the peak frustration is the least non-negative bound of the negated scores, and is reached |
| CallRecord.LabelOfWords | apps/agent-worker/src/conversation/writer.py:20-28 | with the lexical scorer a turn is stored as angry, positive or neutral exactly by its words |
| CallRecord.LabelIntervals | apps/agent-worker/src/conversation/writer.py:20-28 | for any scorer each label has its own interval of scores, without gap or overlap |
| ObjectStorage.Find | packages/object-storage/src/object_storage/store.py:48-50 | the first occurrence of the marker, or none exactly when there is none |
| ObjectStorage.MinioStore.Delete | packages/object-storage/src/object_storage/store.py:46-51 | removes exactly the key found in the argument |
| ObjectStorage.KeyInUrl | packages/object-storage/src/object_storage/store.py:42-51 | what delete reads out of a printed URL, for every key, one with the marker in it too |
| ObjectStorage.DeleteUndoesPut | packages/object-storage/src/object_storage/store.py:42-51 | the round trip gives back the key if and only if endpoint and bucket differ |
| ObjectStorage.SameNameExample | packages/object-storage/src/object_storage/store.py:46-51 | the failing case: with host and bucket both named calls, the key read back is calls/a.wav and not a.wav |
| ObjectStorage.PlainKeyIsItself | packages/object-storage/src/object_storage/store.py:46-51 | a plain key is taken as it is if and only if the marker does not occur in it |
| Retention.RetentionJob.Run | apps/business-api/src/business_api/jobs/retention.py:38-75 | tables, blobs and report after a run with other transactions at the audit append; a committed run has added its own one audit entry, with the report's numbers, behind all earlier ones, an uncommitted one leaves the rows as they were and the blobs gone; it waits only for the audit lock of another; a dry run or an empty match changes nothing |
| Retention.PurgeIsExact | apps/business-api/src/business_api/jobs/retention.py:45-64 | transcripts and pointers of the older sessions are gone, nothing else has changed, and the report counts the changed turns |
| Retention.RunsCompose | apps/business-api/src/business_api/jobs/retention.py:38-75 | a run before one with a later cutoff does not change what the later one leaves |
| Retention.SecondRunChangesNothing | apps/business-api/src/business_api/jobs/retention.py:46-52 | a second run at the same cutoff changes no row and reports no turn |
| Retention.RetainedTranscriptsAreSafe | apps/business-api/src/business_api/jobs/retention.py:46-51 | masked or purged transcripts stay so, and all pass the outbound guard |
| Retention.RecordingIsRemoved | apps/business-api/src/business_api/jobs/retention.py:55-63 | the recording whose printed URL a session older than the cutoff points to is removed |
| Retention.OtherRecordingsStay | apps/business-api/src/business_api/jobs/retention.py:55-58 | a recording to which no session older than the cutoff points stays in the store |
| Retention.OldUrlsExactly | apps/business-api/src/business_api/jobs/retention.py:55-58 | the pointers a run takes are exactly those of the sessions older than the cutoff |
| Retention.MatchedCounts | apps/business-api/src/business_api/jobs/retention.py:41-42 | the reported sessions are as many as there are older than the cutoff |
| Archive.EveryTranscriptIsSafe | apps/business-api/src/business_api/jobs/retention.py:46-51 | in every state that any number of calls and retention runs reach together, every stored transcript is a mask output or purged and passes the outbound guard |
| Archive.TurnsAreOnlyPurged | apps/business-api/src/business_api/jobs/retention.py:46-51 | a stored turn is never changed but by a purge, and a purged one never comes back |
| Archive.RecentTurnsAreKept | apps/business-api/src/business_api/jobs/retention.py:41-51 | a turn of a call that began no earlier than every cutoff is left as it is by any runs and calls |
| Archive.PurgeLeavesNothingOld | apps/business-api/src/business_api/jobs/retention.py:45-64 | a purge in any joint state leaves no transcript and no audio pointer of a call older than its cutoff |

## Left out

- SHA-256, canonical JSON, UUID generation and the clock are parameters; that no two of the texts at hand collide
  is required only where a lemma says so, and new keys and verdict ids are assumed fresh.
- PostgreSQL itself: READ COMMITTED visibility, waiting on a unique key, foreign keys, savepoint rollback and
  the transaction-scoped advisory lock are the semantics of the store, and JSONB payloads and timestamps are
  assumed to read back equal to what was hashed.
- Row locks taken by the retention update statements: progress is proved for transactions as `Store` has them.
- Services.Execute: when the given schedule of the others is used up while another transaction still holds the key
  or the audit lock, the method returns `Waiting`; that such a wait can always end is `Progress.EveryCallCanFinish`.
- Retention.RetentionJob.Run: the two conversation tables are fields of the job, so rows inserted by others while
  it runs are left to `Archive`, and a disabled object store is one whose blobs are all unreachable.
- Progress.DispatchBound: counts calls of the adapter; what the external billing system does with a repeated one is
  outside the platform.
- Conversation.ConversationWriter.DrainLoop: the cancellation of the drain ten seconds after closing is not
  modelled, and the fields of rows that no property reads (language, agent, phone number, times) are dropped.
- Request validation: `require_uuid`, `to_uuid`, the coercions of the schema library beyond type mismatch, HTTP
  status codes, service keys and rate limits.
- Numbers: money is `real`, so rounding to millimes, the instalment amount and `NUMERIC` columns are left out,
  as are the invoice a payment is matched to and the descriptive columns of projected rows.
- Session.SessionUserData.EnsureIdentityVerified: answers given after a task has completed and checks that raise
  are not modelled.
- The lexicon of the sentiment scorer, lower-casing and Unicode classes are parameters or glyph classes.
- The ticketing mirror, notifications, knowledge search, agents and prompts, telephony, dashboards, token
  service, migrations and seeds: best-effort input and output, or claims that a single branch settles.
