/** The phase-7 execution service: a dictionary of responses by idempotency key and the in-memory
    ledger. It is the simple service that the Postgres version replaces. */
module InMemory {
  import opened Domain
  import opened AuditChain

  /** What the service has recorded: the cached responses, and the executions it has audited. */
  datatype Memory = Memory(results: map<Key, Response>, audited: seq<(string, AuditPayload)>)

  const NOTHING := Memory(map[], [])

  /** `reference` is what the dispatcher answers if it is asked. */
  function ExecuteOnce(m: Memory, req: Request, reference: string): (Memory, Response) {
    if req.key in m.results then (m, m.results[req.key].(replay := true))
    else
      var response := Response(reference, req.action, false);
      (Memory(m.results[req.key := response],
              m.audited + [(req.session, ResultPayload(req.action, reference, req.key))]),
       response)
  }

  class IdempotencyStore {
    var results: map<Key, Response>

    constructor ()
      ensures results == map[]
    {
      results := map[];
    }

    method Get(key: Key) returns (r: Option<Response>)
      ensures r == if key in results then Some(results[key]) else None
    {
      r := if key in results then Some(results[key]) else None;
    }

    method Put(key: Key, response: Response)
      modifies this
      ensures results == old(results)[key := response]
    {
      results := results[key := response];
    }
  }

  function Audited(entries: seq<Entry>): seq<(string, AuditPayload)> {
    seq(|entries|, i requires 0 <= i < |entries| => (entries[i].session.GetOr(""), entries[i].payload))
  }

  class ExecutionService {
    const store: IdempotencyStore
    const ledger: AuditLedger

    ghost predicate Valid()
      reads this, store, ledger
    {
      ledger.Valid()
    }

    ghost function Recorded(): Memory
      reads this, store, ledger
    {
      Memory(store.results, Audited(ledger.entries))
    }

    constructor (store: IdempotencyStore, ledger: AuditLedger)
      requires ledger.Valid()
      ensures Valid() && this.store == store && this.ledger == ledger
    {
      this.store := store;
      this.ledger := ledger;
    }

    /** `reference` and `now` are the answers of the dispatcher and of the clock. */
    method Execute(req: Request, reference: string, now: string) returns (response: Response)
      requires Valid()
      modifies store, ledger
      ensures Valid()
      ensures (Recorded(), response) == ExecuteOnce(old(Recorded()), req, reference)
      ensures old(req.key in store.results) ==> ledger.entries == old(ledger.entries)
    {
      var cached := store.Get(req.key);
      if cached.Some? {
        return cached.value.(replay := true);
      }
      response := Response(reference, req.action, false);
      store.Put(req.key, response);
      var payload := ResultPayload(req.action, reference, req.key);
      var entry := ledger.Append(Some(req.session), ExecutionResult, payload, now);
      assert Audited(ledger.entries) == Audited(old(ledger.entries)) + [(req.session, payload)];
    }
  }
}
