/** The hash-chained audit ledger: the chain verifier, what the head hash commits to, and the
    in-memory ledger. SHA-256 and canonical JSON are parameters; what is needed of them is a
    requirement of the lemmas that need it. */
module AuditChain {
  import opened Domain

  const ZEROS := "00000000"

  /** Sixty-four zeros. */
  const GENESIS_HASH: string := ZEROS + ZEROS + ZEROS + ZEROS + ZEROS + ZEROS + ZEROS + ZEROS

  /** `sha` is the hex digest of a UTF-8 text, `canonical` the sorted compact JSON of a payload. */
  datatype Hashing = Hashing(sha: string -> string, canonical: AuditPayload -> string)

  datatype EventType = PolicyVerdict | ExecutionResult | Consent | DataRetention

  datatype Entry = Entry(
    session: Option<string>,
    event: EventType,
    payload: AuditPayload,
    previous: string,
    timestamp: string,
    hash: string)

  function DigestInput(h: Hashing, previous: string, payload: AuditPayload, timestamp: string): string {
    previous + "|" + h.canonical(payload) + "|" + timestamp
  }

  function ComputeEntryHash(h: Hashing, previous: string, payload: AuditPayload, timestamp: string): string {
    h.sha(DigestInput(h, previous, payload, timestamp))
  }

  function BuildEntry(h: Hashing, session: Option<string>, event: EventType, payload: AuditPayload,
                      previous: string, timestamp: string): Entry
  {
    Entry(session, event, payload, previous, timestamp, ComputeEntryHash(h, previous, payload, timestamp))
  }

  /** The hash the next entry must link to. */
  function Head(entries: seq<Entry>): string {
    if entries == [] then GENESIS_HASH else entries[|entries| - 1].hash
  }

  predicate Sealed(h: Hashing, e: Entry) {
    ComputeEntryHash(h, e.previous, e.payload, e.timestamp) == e.hash
  }

  ghost predicate Linked(h: Hashing, entries: seq<Entry>, i: nat)
    requires i < |entries|
  {
    Sealed(h, entries[i]) && entries[i].previous == Head(entries[..i])
  }

  /** One linear chain from genesis: every entry is sealed and links to the entry before it. */
  ghost predicate Intact(h: Hashing, entries: seq<Entry>) {
    forall i :: 0 <= i < |entries| ==> Linked(h, entries, i)
  }

  method VerifyChain(h: Hashing, entries: seq<Entry>) returns (ok: bool)
    ensures ok <==> Intact(h, entries)
  {
    var expectedPrevious := GENESIS_HASH;
    for i := 0 to |entries|
      invariant expectedPrevious == Head(entries[..i])
      invariant forall j :: 0 <= j < i ==> Linked(h, entries, j)
    {
      assert Intact(h, entries) ==> Linked(h, entries, i);
      if entries[i].previous != expectedPrevious {
        return false;
      }
      if ComputeEntryHash(h, entries[i].previous, entries[i].payload, entries[i].timestamp) != entries[i].hash {
        return false;
      }
      expectedPrevious := entries[i].hash;
    }
    return true;
  }

  lemma IntactPrefix(h: Hashing, entries: seq<Entry>, n: nat)
    requires Intact(h, entries) && n <= |entries|
    ensures Intact(h, entries[..n])
  {
    forall i | 0 <= i < n
      ensures Linked(h, entries[..n], i)
    {
      assert Linked(h, entries, i) && entries[..n][..i] == entries[..i];
    }
  }

  /** Appending is sound exactly when the new entry is sealed and links to the head. */
  lemma IntactExtend(h: Hashing, entries: seq<Entry>, e: Entry)
    ensures Intact(h, entries + [e]) <==> Intact(h, entries) && Sealed(h, e) && e.previous == Head(entries)
  {
    var all := entries + [e];
    assert forall i :: 0 <= i <= |entries| ==> all[..i] == entries[..i];
    if Intact(h, all) {
      assert Linked(h, all, |entries|) && all[..|entries|] == entries;
      IntactPrefix(h, all, |entries|);
    }
    if Intact(h, entries) && Sealed(h, e) && e.previous == Head(entries) {
      forall i | 0 <= i < |all| ensures Linked(h, all, i) {
        if i < |entries| {
          assert Linked(h, entries, i) && all[..i] == entries[..i];
        } else {
          assert all[..i] == entries;
        }
      }
    }
  }

  // ---------- what the head hash commits to ----------

  function InputOf(h: Hashing, e: Entry): string {
    DigestInput(h, e.previous, e.payload, e.timestamp)
  }

  /** The texts that were hashed for the entries. */
  function InputsOf(h: Hashing, entries: seq<Entry>): set<string> {
    set i | 0 <= i < |entries| :: InputOf(h, entries[i])
  }

  /** The width of a SHA-256 digest in hexadecimal. */
  const DIGEST_WIDTH := 64

  /** What is asked of SHA-256, and only on the texts at hand: fixed width, no digest equal to genesis, no
      two of the texts colliding. */
  ghost predicate IdealOn(sha: string -> string, inputs: set<string>) {
    && (forall x :: x in inputs ==> |sha(x)| == DIGEST_WIDTH && sha(x) != GENESIS_HASH)
    && (forall x, y :: x in inputs && y in inputs && sha(x) == sha(y) ==> x == y)
  }

  /** ISO-8601 timestamps hold no separator. */
  ghost predicate PlainTimestamps(entries: seq<Entry>) {
    forall i :: 0 <= i < |entries| ==> '|' !in entries[i].timestamp
  }

  ghost predicate SameRecord(h: Hashing, a: Entry, b: Entry) {
    && a.previous == b.previous
    && h.canonical(a.payload) == h.canonical(b.payload)
    && a.timestamp == b.timestamp
    && a.hash == b.hash
  }

  lemma LastSeparatorIsLast(left: string, right: string, left': string, right': string)
    requires left + "|" + right == left' + "|" + right' && '|' !in right
    ensures |left'| <= |left|
  {
    var whole := left + "|" + right;
    assert forall i :: |left| < i < |whole| ==> whole[i] == right[i - |left| - 1] != '|';
    assert (left' + "|" + right')[|left'|] == '|';
  }

  ghost predicate SameRecords(h: Hashing, a: seq<Entry>, b: seq<Entry>) {
    |a| == |b| && forall i :: 0 <= i < |a| ==> SameRecord(h, a[i], b[i])
  }

  lemma SameRecordsExtend(h: Hashing, a: seq<Entry>, b: seq<Entry>)
    requires a != [] && b != []
    requires SameRecords(h, a[..|a| - 1], b[..|b| - 1]) && SameRecord(h, a[|a| - 1], b[|b| - 1])
    ensures SameRecords(h, a, b)
  {
    forall i | 0 <= i < |a| ensures SameRecord(h, a[i], b[i]) {
      if i < |a| - 1 {
        assert SameRecord(h, a[..|a| - 1][i], b[..|b| - 1][i]);
      }
    }
  }

  /** A text splits in only one way at its last separator. */
  lemma LastSeparatorSplitsUniquely(left: string, right: string, left': string, right': string)
    requires left + "|" + right == left' + "|" + right'
    requires '|' !in right && '|' !in right'
    ensures left == left' && right == right'
  {
    LastSeparatorIsLast(left, right, left', right');
    LastSeparatorIsLast(left', right', left, right);
    var whole := left + "|" + right;
    assert left == whole[..|left|] && left' == (left' + "|" + right')[..|left'|];
    assert right == whole[|left| + 1..] && right' == (left' + "|" + right')[|left'| + 1..];
  }

  /** The digest input splits uniquely: the first field has fixed width and the last no separator. */
  lemma DigestInputSplitsUniquely(h: Hashing, p: string, x: AuditPayload, t: string,
                                  p': string, x': AuditPayload, t': string)
    requires DigestInput(h, p, x, t) == DigestInput(h, p', x', t')
    requires |p| == |p'| && '|' !in t && '|' !in t'
    ensures p == p' && h.canonical(x) == h.canonical(x') && t == t'
  {
    var left, left' := p + "|" + h.canonical(x), p' + "|" + h.canonical(x');
    LastSeparatorSplitsUniquely(left, t, left', t');
    assert left[..|p|] == p && left'[..|p'|] == p';
    assert left[|p| + 1..] == h.canonical(x) && left'[|p'| + 1..] == h.canonical(x');
  }

  lemma InputsOfPrefix(h: Hashing, entries: seq<Entry>, n: nat)
    requires n <= |entries|
    ensures InputsOf(h, entries[..n]) <= InputsOf(h, entries)
  {
  }

  lemma HeadWidth(h: Hashing, entries: seq<Entry>)
    requires IdealOn(h.sha, InputsOf(h, entries)) && Intact(h, entries)
    ensures |Head(entries)| == DIGEST_WIDTH
    ensures entries != [] ==> Head(entries) != GENESIS_HASH
  {
    if entries != [] {
      assert Linked(h, entries, |entries| - 1);
      assert InputOf(h, entries[|entries| - 1]) in InputsOf(h, entries);
    }
  }

  lemma SameHashSameRecord(h: Hashing, a: Entry, b: Entry)
    requires IdealOn(h.sha, {InputOf(h, a), InputOf(h, b)}) && Sealed(h, a) && Sealed(h, b) && a.hash == b.hash
    requires |a.previous| == |b.previous| && '|' !in a.timestamp && '|' !in b.timestamp
    ensures SameRecord(h, a, b)
  {
    DigestInputSplitsUniquely(h, a.previous, a.payload, a.timestamp, b.previous, b.payload, b.timestamp);
  }

  lemma LastRecordsAgree(h: Hashing, a: seq<Entry>, b: seq<Entry>)
    requires IdealOn(h.sha, InputsOf(h, a) + InputsOf(h, b)) && Intact(h, a) && Intact(h, b)
    requires PlainTimestamps(a) && PlainTimestamps(b)
    requires Head(a) == Head(b) && a != [] && b != []
    ensures Head(a[..|a| - 1]) == Head(b[..|b| - 1]) && SameRecord(h, a[|a| - 1], b[|b| - 1])
  {
    var m, n := |a| - 1, |b| - 1;
    IntactPrefix(h, a, m);
    IntactPrefix(h, b, n);
    InputsOfPrefix(h, a, m);
    InputsOfPrefix(h, b, n);
    HeadWidth(h, a[..m]);
    HeadWidth(h, b[..n]);
    assert Linked(h, a, m) && Linked(h, b, n);
    assert InputOf(h, a[m]) in InputsOf(h, a) && InputOf(h, b[n]) in InputsOf(h, b);
    SameHashSameRecord(h, a[m], b[n]);
  }

  /** The head hash commits to the whole history, whatever the two lengths are. */
  lemma {:induction false} HeadCommitsToHistory(h: Hashing, a: seq<Entry>, b: seq<Entry>)
    requires IdealOn(h.sha, InputsOf(h, a) + InputsOf(h, b)) && Intact(h, a) && Intact(h, b)
    requires PlainTimestamps(a) && PlainTimestamps(b)
    requires Head(a) == Head(b)
    ensures SameRecords(h, a, b)
    decreases |a|
  {
    HeadWidth(h, a);
    HeadWidth(h, b);
    if a != [] && b != [] {
      var m, n := |a| - 1, |b| - 1;
      LastRecordsAgree(h, a, b);
      IntactPrefix(h, a, m);
      IntactPrefix(h, b, n);
      InputsOfPrefix(h, a, m);
      InputsOfPrefix(h, b, n);
      HeadCommitsToHistory(h, a[..m], b[..n]);
      SameRecordsExtend(h, a, b);
    }
  }

  /** Two intact chains that differ in some hashed record have different head hashes: who keeps the head
      hash notices every edit, insertion and truncation. */
  lemma DifferentHistoryDifferentHead(h: Hashing, a: seq<Entry>, b: seq<Entry>)
    requires IdealOn(h.sha, InputsOf(h, a) + InputsOf(h, b)) && Intact(h, a) && Intact(h, b)
    requires PlainTimestamps(a) && PlainTimestamps(b)
    ensures Head(a) == Head(b) <==> SameRecords(h, a, b)
  {
    if Head(a) == Head(b) {
      HeadCommitsToHistory(h, a, b);
    }
    assert SameRecords(h, a, b) && a != [] ==> SameRecord(h, a[|a| - 1], b[|b| - 1]);
  }

  lemma EndsOfDigestInput(h: Hashing, e: Entry)
    requires e.previous != []
    ensures var input := InputOf(h, e);
            |input| > 0 && input[0] == e.previous[0]
            && input[|input| - 1] == if e.timestamp == [] then '|' else e.timestamp[|e.timestamp| - 1]
  {
  }

  ghost function ToyDigest(text: string): (r: string)
    ensures |r| == |GENESIS_HASH| && r != GENESIS_HASH
    ensures r[0] == if text == [] || text[0] != '0' then '2' else if text[|text| - 1] == '|' then '1' else '3'
  {
    var c := if text == [] || text[0] != '0' then '2' else if text[|text| - 1] == '|' then '1' else '3';
    var r := seq(|GENESIS_HASH|, _ => c);
    assert r[0] == c && GENESIS_HASH[0] == '0';
    r
  }

  /** The assumption can be met: a digest, a chain of two entries and a sealed edit of the first one,
      whatever the payloads are, on which that digest is ideal. */
  lemma IdealDigestsExist(canonical: AuditPayload -> string, x: AuditPayload, y: AuditPayload, z: AuditPayload)
    returns (h: Hashing, entries: seq<Entry>, edit: Entry)
    ensures h.canonical == canonical && |entries| == 2
    ensures entries[0].payload == x && entries[1].payload == y && edit.payload == z
    ensures Intact(h, entries) && PlainTimestamps(entries)
    ensures Sealed(h, edit) && '|' !in edit.timestamp && !SameRecord(h, edit, entries[0])
    ensures IdealOn(h.sha, InputsOf(h, entries) + {InputOf(h, edit)})
  {
    h := Hashing(ToyDigest, canonical);
    var first := BuildEntry(h, None, Consent, x, GENESIS_HASH, "");
    var second := BuildEntry(h, None, Consent, y, first.hash, "");
    edit := BuildEntry(h, None, Consent, z, GENESIS_HASH, "now");
    entries := [first, second];
    assert GENESIS_HASH[0] == '0';
    EndsOfDigestInput(h, first);
    EndsOfDigestInput(h, second);
    EndsOfDigestInput(h, edit);
    assert first.hash[0] == '1' && second.hash[0] == '2' && edit.hash[0] == '3';
    IntactExtend(h, [], first);
    IntactExtend(h, [first], second);
    assert [] + [first] == [first] && [first] + [second] == entries;
    assert InputsOf(h, entries) == {InputOf(h, first), InputOf(h, second)} by {
      assert entries[0] == first && entries[1] == second;
    }
  }

  // ---------- exactly which edits the verifier catches ----------

  lemma HeadAfterEdit(entries: seq<Entry>, k: nat, e: Entry, i: nat)
    requires k < |entries| && i <= |entries|
    ensures Head(entries[k := e][..i]) == if i == k + 1 then e.hash else Head(entries[..i])
  {
  }

  /** Replacing an entry that is not the last goes unnoticed exactly when the hashed record is the same. */
  lemma EditBeforeTheHeadIsCaught(h: Hashing, entries: seq<Entry>, k: nat, e: Entry)
    requires IdealOn(h.sha, InputsOf(h, entries) + {InputOf(h, e)}) && Intact(h, entries) && PlainTimestamps(entries)
    requires k + 1 < |entries| && '|' !in e.timestamp
    ensures Intact(h, entries[k := e]) <==> SameRecord(h, e, entries[k])
  {
    var edited := entries[k := e];
    assert Linked(h, entries, k);
    assert Linked(h, entries, k + 1) && Head(entries[..k + 1]) == entries[k].hash;
    if Intact(h, edited) {
      assert Linked(h, edited, k + 1) && Head(edited[..k + 1]) == e.hash;
      assert Linked(h, edited, k);
      HeadAfterEdit(entries, k, e, k);
      assert InputOf(h, entries[k]) in InputsOf(h, entries);
      SameHashSameRecord(h, e, entries[k]);
    }
    if SameRecord(h, e, entries[k]) {
      forall i | 0 <= i < |edited| ensures Linked(h, edited, i) {
        HeadAfterEdit(entries, k, e, i);
        assert Linked(h, entries, i);
      }
    }
  }

  /** A chain that goes on from a given hash. */
  ghost predicate IntactFrom(h: Hashing, head: string, entries: seq<Entry>)
    decreases |entries|
  {
    entries != [] ==>
      && entries[0].previous == head && Sealed(h, entries[0])
      && IntactFrom(h, entries[0].hash, entries[1..])
  }

  /** Exactly which tails are accepted after a given beginning: those chained from its head hash, an empty
      one included, so cutting entries off the end is never noticed. */
  lemma {:induction false} TailIsAcceptedExactlyWhen(h: Hashing, entries: seq<Entry>, tail: seq<Entry>)
    requires Intact(h, entries)
    ensures Intact(h, entries + tail) <==> IntactFrom(h, Head(entries), tail)
    decreases |tail|
  {
    if tail == [] {
      assert entries + tail == entries;
    } else {
      var next := entries + [tail[0]];
      assert entries + tail == next + tail[1..] && (entries + tail)[..|next|] == next;
      IntactExtend(h, entries, tail[0]);
      if Intact(h, entries + tail) {
        IntactPrefix(h, entries + tail, |next|);
      }
      if Intact(h, next) {
        TailIsAcceptedExactlyWhen(h, next, tail[1..]);
      }
    }
  }

  /** New contents sealed and chained from a given hash. */
  function Resealed(h: Hashing, head: string, contents: seq<Entry>): (r: seq<Entry>)
    ensures |r| == |contents|
    decreases |contents|
  {
    if contents == [] then [] else
    var c := contents[0];
    var e := BuildEntry(h, c.session, c.event, c.payload, head, c.timestamp);
    [e] + Resealed(h, e.hash, contents[1..])
  }

  lemma {:induction false} ResealedIsIntact(h: Hashing, head: string, contents: seq<Entry>)
    ensures IntactFrom(h, head, Resealed(h, head, contents))
    decreases |contents|
  {
    if contents != [] {
      ResealedIsIntact(h, Resealed(h, head, contents)[0].hash, contents[1..]);
    }
  }

  /** From any index on, a chain can be rewritten with any contents and still be accepted. */
  lemma ResealedSuffixIsNotCaught(h: Hashing, entries: seq<Entry>, k: nat, contents: seq<Entry>)
    requires Intact(h, entries) && k <= |entries|
    ensures Intact(h, entries[..k] + Resealed(h, Head(entries[..k]), contents))
  {
    IntactPrefix(h, entries, k);
    ResealedIsIntact(h, Head(entries[..k]), contents);
    TailIsAcceptedExactlyWhen(h, entries[..k], Resealed(h, Head(entries[..k]), contents));
  }

  /** The last entry can be rewritten unnoticed, exactly when the new one is linked and sealed:
      there is no later entry to contradict it. */
  lemma EditOfTheHeadIsNotCaught(h: Hashing, entries: seq<Entry>, e: Entry)
    requires Intact(h, entries) && entries != []
    ensures Intact(h, entries[|entries| - 1 := e]) <==>
            Sealed(h, e) && e.previous == entries[|entries| - 1].previous
  {
    var n := |entries| - 1;
    IntactPrefix(h, entries, n);
    IntactExtend(h, entries[..n], e);
    assert entries[n := e] == entries[..n] + [e];
    assert Linked(h, entries, n);
  }

  /** Any payload and timestamp can stand in for those of the last entry. */
  lemma LastEntryCanBeRewritten(h: Hashing, entries: seq<Entry>, payload: AuditPayload, timestamp: string)
    requires Intact(h, entries) && entries != []
    ensures var last := entries[|entries| - 1];
            var e := BuildEntry(h, last.session, last.event, payload, last.previous, timestamp);
            Intact(h, entries[|entries| - 1 := e])
  {
    var last := entries[|entries| - 1];
    EditOfTheHeadIsNotCaught(h, entries, BuildEntry(h, last.session, last.event, payload, last.previous, timestamp));
  }

  /** The session and the event type are not hashed: the verifier says nothing about them. */
  lemma UnhashedFieldsAreFree(h: Hashing, a: seq<Entry>, b: seq<Entry>)
    requires |a| == |b|
    requires forall i :: 0 <= i < |a| ==> b[i] == a[i].(session := b[i].session, event := b[i].event)
    ensures Intact(h, a) <==> Intact(h, b)
  {
    assert forall i :: 0 <= i <= |a| ==> Head(a[..i]) == Head(b[..i]);
    assert forall i :: 0 <= i < |a| ==> (Sealed(h, a[i]) <==> Sealed(h, b[i])) && a[i].previous == b[i].previous;
    if Intact(h, a) {
      forall i | 0 <= i < |b| ensures Linked(h, b, i) {
        assert Linked(h, a, i);
      }
    }
    if Intact(h, b) {
      forall i | 0 <= i < |a| ensures Linked(h, a, i) {
        assert Linked(h, b, i);
      }
    }
  }

  // ---------- the in-memory ledger ----------

  class AuditLedger {
    const hashing: Hashing
    var entries: seq<Entry>
    var lastHash: string

    /** The memoised hash is the head of an intact chain. */
    ghost predicate Valid()
      reads this
    {
      Intact(hashing, entries) && lastHash == Head(entries)
    }

    constructor (hashing: Hashing)
      ensures Valid() && entries == [] && this.hashing == hashing
    {
      this.hashing := hashing;
      this.entries := [];
      this.lastHash := GENESIS_HASH;
    }

    method Append(session: Option<string>, event: EventType, payload: AuditPayload, now: string)
      returns (entry: Entry)
      requires Valid()
      modifies this
      ensures Valid() && entries == old(entries) + [entry]
      ensures entry == BuildEntry(hashing, session, event, payload, Head(old(entries)), now)
    {
      entry := BuildEntry(hashing, session, event, payload, lastHash, now);
      IntactExtend(hashing, entries, entry);
      entries := entries + [entry];
      lastHash := entry.hash;
    }

    method Verify() returns (ok: bool)
      ensures ok <==> Intact(hashing, entries)
      ensures Valid() ==> ok
    {
      ok := VerifyChain(hashing, entries);
    }
  }
}
