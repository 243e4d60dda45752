/** Values shared by the worker, the policy service, the execution service and the audit ledger. */
module Domain {

  datatype Option<+T> = None | Some(value: T) {
    predicate IsFailure() {
      None?
    }

    function PropagateFailure<U>(): Option<U>
      requires None?
    {
      None
    }

    function Extract(): T
      requires Some?
    {
      value
    }

    function GetOr(default: T): T {
      if Some? then value else default
    }
  }

  type Key = string
  type Uuid = string

  /** The catalogue of guarded actions; anything else is `Uncatalogued`. */
  datatype Action =
    | ExecutePayment
    | PaymentDeferral
    | UnblockSim
    | ReplaceSim
    | ReactivateSim
    | TopUp
    | ChangePlan
    | ActivateRoaming
    | Uncatalogued(name: string)

  /** The keys of the context and payload dictionaries. */
  datatype Field =
    | SessionId
    | CustomerId
    | SubscriptionId
    | ActionType
    | IsVip
    | FraudSuspected
    | Frustration
    | IdentityVerified
    | ClarificationAttempts
    | IdentityAttempts
    | AccountAgeDays
    | Amount
    | RequestedDays
    | DeferralsThisYear
    | UnpaidAmount
    | PaymentConfirmed
    | Unread(name: string)

  datatype Value =
    | Null
    | Text(text: string)
    | Name(action: Action)
    | Flag(flag: bool)
    | Count(count: int)
    | Money(money: real)

  type Dict = map<Field, Value>

  datatype Request = Request(
    key: Key,
    action: Action,
    session: string,
    verdictId: Uuid,
    customer: Option<string>,
    subscription: Option<string>,
    payload: Dict)

  /** `status` is "executed" in every response, so it is not a field. */
  datatype Response = Response(reference: string, action: Action, replay: bool)

  datatype Verdict = Authorized | Refused | Escalate

  /** The four payload shapes that reach the audit ledger, one for each event type. */
  datatype AuditPayload =
    | VerdictPayload(action: Action, verdict: Verdict, ruleId: string)
    | ResultPayload(action: Action, reference: string, key: Key)
    | ConsentPayload(granted: bool)
    | RetentionPayload(cutoff: int, sessions: nat, turnsAnonymized: nat)
}
