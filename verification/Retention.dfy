/** The retention job: transcripts of old calls are anonymized, their audio is deleted and its pointer
    cleared, and the run is audited. */
module Retention {
  import opened Domain
  import opened AuditChain
  import opened Masker
  import opened Placeholders
  import opened CallRecord
  import opened ObjectStorage
  import Store
  import Services
  import Progress

  datatype CallSession = CallSession(id: nat, startTime: int, audioUrl: Option<string>)

  datatype TurnRow = TurnRow(session: nat, index: nat, transcript: Option<Glyphs>)

  const PURGED: Glyphs := Bracketing("purged")

  datatype Report = Report(cutoff: int, sessionsMatched: nat, turnsAnonymized: nat, dryRun: bool)

  function OldIds(sessions: seq<CallSession>, cutoff: int): set<nat> {
    set i | 0 <= i < |sessions| && sessions[i].startTime < cutoff :: sessions[i].id
  }

  function Matched(sessions: seq<CallSession>, cutoff: int): nat {
    if sessions == [] then 0
    else (if sessions[0].startTime < cutoff then 1 else 0) + Matched(sessions[1..], cutoff)
  }

  predicate ToPurge(ids: set<nat>, t: TurnRow) {
    t.session in ids && t.transcript.Some? && t.transcript.value != PURGED
  }

  function PurgeTurn(ids: set<nat>, t: TurnRow): TurnRow {
    if ToPurge(ids, t) then t.(transcript := Some(PURGED)) else t
  }

  function PurgeTurns(ids: set<nat>, turns: seq<TurnRow>): seq<TurnRow> {
    seq(|turns|, i requires 0 <= i < |turns| => PurgeTurn(ids, turns[i]))
  }

  /** The rows an update statement reports. */
  function RowCount(ids: set<nat>, turns: seq<TurnRow>): nat {
    if turns == [] then 0 else (if ToPurge(ids, turns[0]) then 1 else 0) + RowCount(ids, turns[1..])
  }

  function ClearAudio(ids: set<nat>, sessions: seq<CallSession>): seq<CallSession> {
    seq(|sessions|, i requires 0 <= i < |sessions| =>
      if sessions[i].id in ids then sessions[i].(audioUrl := None) else sessions[i])
  }

  /** The audio pointers of the old calls. */
  function OldUrls(ids: set<nat>, sessions: seq<CallSession>): seq<string> {
    if sessions == [] then []
    else (if sessions[0].id in ids && sessions[0].audioUrl.Some? then [sessions[0].audioUrl.value] else [])
         + OldUrls(ids, sessions[1..])
  }

  /** Transaction `t` is this run's and has committed its one audit entry, behind the entries that were
      there before and those that others committed meanwhile. */
  ghost predicate RunIsAudited(before: Store.Db, after: Store.Db, t: nat, cutoff: int, matched: nat, turns: nat) {
    var job, known, audit := Store.Purge(cutoff, matched, turns), before.tables.audit, after.tables.audit;
    && t < |after.txs| && after.txs[t].job == job && after.txs[t].stage == Store.Committed
    && |audit| > |known| && known <= audit[..|audit| - 1]
    && var row := audit[|audit| - 1];
       && row.entity == Store.RetentionJob && row.entry.session == None && row.entry.event == DataRetention
       && row.entry.payload.RetentionPayload? && row.entry.payload.cutoff == cutoff
       && row.entry.payload.sessions == matched && row.entry.payload.turnsAnonymized == turns
  }

  class RetentionJob {
    var sessions: seq<CallSession>
    var turns: seq<TurnRow>
    const store: MinioStore
    const pg: Services.Database

    constructor (sessions: seq<CallSession>, turns: seq<TurnRow>, store: MinioStore, pg: Services.Database)
      ensures this.sessions == sessions && this.turns == turns && this.store == store && this.pg == pg
    {
      this.sessions := sessions;
      this.turns := turns;
      this.store := store;
      this.pg := pg;
    }

    /** `unreachable` are the blobs whose deletion fails; a failed deletion is passed over. Other
        transactions run while the job appends its audit entry, and the commit may fail: then the rows
        are as they were, but the blobs are gone. */
    method Run(cutoff: int, dryRun: bool, unreachable: set<string>, now: string, commits: bool,
               others: seq<seq<Store.Event>>, waits: seq<seq<Store.Event>>)
      returns (result: Services.Result<Report>)
      requires pg.Valid()
      modifies this, store, pg
      ensures pg.Valid() && old(pg.history) <= pg.history
      ensures result.Raised? ==> !commits
      ensures result.Waiting? ==> pg.db.lock.Some? && Services.SomeoneElse(pg.db, |old(pg.db).txs|)
      ensures Progress.AllFinished(old(pg.db)) && others == [] && waits == [] ==> !result.Waiting?
      ensures var ids, matched := OldIds(old(sessions), cutoff), Matched(old(sessions), cutoff);
              var t := |old(pg.db).txs|;
              if !dryRun && matched > 0
              then
                && t < |pg.db.txs|
                && store.objects == old(store.objects) - Removed(store.bucket, old(sessions), cutoff, unreachable)
                && (if result.Answered?
                    then
                      var anonymized := RowCount(ids, old(turns));
                      && result.value == Report(cutoff, matched, anonymized, dryRun)
                      && turns == PurgeTurns(ids, old(turns)) && sessions == ClearAudio(ids, old(sessions))
                      && RunIsAudited(old(pg.db), pg.db, t, cutoff, matched, anonymized)
                    else
                      && turns == old(turns) && sessions == old(sessions)
                      && pg.db.txs[t].stage != Store.Committed)
              else
                && result == Services.Answered(Report(cutoff, matched, 0, dryRun))
                && turns == old(turns) && sessions == old(sessions)
                && pg.db == old(pg.db) && store.objects == old(store.objects)
    {
      var ids := OldIds(sessions, cutoff);
      var matched := Matched(sessions, cutoff);
      if dryRun || matched == 0 {
        return Services.Answered(Report(cutoff, matched, 0, dryRun));
      }
      var turnsAnonymized := RowCount(ids, turns);
      var urls := OldUrls(ids, sessions);
      for i := 0 to |urls|
        modifies store
        invariant store.objects == old(store.objects) - Deleted(store.bucket, urls[..i], unreachable)
      {
        if urls[i] !in unreachable {
          store.Delete(urls[i]);
        }
        DeletedExtend(store.bucket, urls[..i], urls[i], unreachable);
        assert urls[..i + 1] == urls[..i] + [urls[i]];
      }
      assert urls[..|urls|] == urls;
      var committed := AppendAndCommit(cutoff, matched, turnsAnonymized, now, commits, others, waits);
      match committed {
        case Answered(_) =>
          turns := PurgeTurns(ids, turns);
          sessions := ClearAudio(ids, sessions);
          result := Services.Answered(Report(cutoff, matched, turnsAnonymized, dryRun));
        case Raised => result := Services.Raised;
        case Waiting => result := Services.Waiting;
      }
    }

    /** The audit entry of a run and the commit of its transaction. */
    method AppendAndCommit(cutoff: int, matched: nat, turnsAnonymized: nat, now: string, commits: bool,
                           others: seq<seq<Store.Event>>, waits: seq<seq<Store.Event>>)
      returns (end: Services.Result<Store.AuditRow>)
      requires pg.Valid()
      modifies pg
      ensures pg.Valid() && old(pg.history) <= pg.history && |old(pg.db).txs| < |pg.db.txs|
      ensures if end.Answered?
              then RunIsAudited(old(pg.db), pg.db, |old(pg.db).txs|, cutoff, matched, turnsAnonymized)
              else pg.db.txs[|old(pg.db).txs|].stage != Store.Committed
      ensures end.Raised? ==> !commits
      ensures end.Waiting? ==> pg.db.lock.Some? && Services.SomeoneElse(pg.db, |old(pg.db).txs|)
      ensures Progress.AllFinished(old(pg.db)) && others == [] && waits == [] ==> !end.Waiting?
    {
      var t := |pg.db.txs|;
      pg.Do(Store.Begin(Store.Purge(cutoff, matched, turnsAnonymized)));
      ghost var before := pg.db;
      Services.Interrupt(pg, before, t, Services.At(others, 0));
      pg.Do(Store.Flush(t));
      end := Services.AuditAndCommit(pg, t, now, commits, others[if |others| < 1 then |others| else 1..], waits);
    }
  }

  /** The keys of the blobs that are removed. */
  ghost function Deleted(bucket: string, urls: seq<string>, unreachable: set<string>): set<string> {
    set i | 0 <= i < |urls| && urls[i] !in unreachable :: KeyIn(bucket, urls[i])
  }

  lemma DeletedExtend(bucket: string, urls: seq<string>, url: string, unreachable: set<string>)
    ensures Deleted(bucket, urls + [url], unreachable) ==
            Deleted(bucket, urls, unreachable) + if url in unreachable then {} else {KeyIn(bucket, url)}
  {
    var all := urls + [url];
    assert all[|urls|] == url;
    forall k | k in Deleted(bucket, urls, unreachable) ensures k in Deleted(bucket, all, unreachable) {
      var i :| 0 <= i < |urls| && urls[i] !in unreachable && KeyIn(bucket, urls[i]) == k;
      assert all[i] == urls[i];
    }
  }

  // ---------- exactness ----------

  ghost function Differences(a: seq<TurnRow>, b: seq<TurnRow>): nat
    requires |a| == |b|
  {
    if a == [] then 0 else (if a[0] != b[0] then 1 else 0) + Differences(a[1..], b[1..])
  }

  lemma {:induction false} RowCountIsDifferences(ids: set<nat>, turns: seq<TurnRow>)
    ensures RowCount(ids, turns) == Differences(turns, PurgeTurns(ids, turns))
  {
    if turns != [] {
      RowCountIsDifferences(ids, turns[1..]);
      assert PurgeTurns(ids, turns)[1..] == PurgeTurns(ids, turns[1..]);
    }
  }

  predicate IsOld(sessions: seq<CallSession>, cutoff: int, id: nat) {
    exists i :: 0 <= i < |sessions| && sessions[i].id == id && sessions[i].startTime < cutoff
  }

  ghost predicate UniqueIds(sessions: seq<CallSession>) {
    forall i, j :: 0 <= i < j < |sessions| ==> sessions[i].id != sessions[j].id
  }

  /** After a real run the transcripts of the older calls are purged where there were any and their
      pointers are null; nothing of the others has changed; the report counts the turns that did. */
  lemma PurgeIsExact(sessions: seq<CallSession>, turns: seq<TurnRow>, cutoff: int)
    requires UniqueIds(sessions)
    ensures var ids := OldIds(sessions, cutoff);
            var sessions', turns' := ClearAudio(ids, sessions), PurgeTurns(ids, turns);
            && |turns'| == |turns| && |sessions'| == |sessions|
            && (forall i :: 0 <= i < |turns| ==>
                  turns'[i] == if IsOld(sessions, cutoff, turns[i].session) && turns[i].transcript.Some?
                               then turns[i].(transcript := Some(PURGED)) else turns[i])
            && (forall i :: 0 <= i < |sessions| ==>
                  sessions'[i] ==
                  if sessions[i].startTime < cutoff then sessions[i].(audioUrl := None) else sessions[i])
            && RowCount(ids, turns) == Differences(turns, turns')
  {
    var ids := OldIds(sessions, cutoff);
    RowCountIsDifferences(ids, turns);
    forall i | 0 <= i < |sessions| ensures sessions[i].id in ids <==> sessions[i].startTime < cutoff {
      if sessions[i].id in ids {
        var j :| 0 <= j < |sessions| && sessions[j].startTime < cutoff && sessions[j].id == sessions[i].id;
        assert i < j || j < i || i == j;
      }
    }
  }

  lemma OldIdsGrow(sessions: seq<CallSession>, c1: int, c2: int)
    requires c1 <= c2
    ensures OldIds(sessions, c1) <= OldIds(sessions, c2)
  {
  }

  lemma ClearAudioKeepsAges(ids: set<nat>, sessions: seq<CallSession>, cutoff: int)
    ensures OldIds(ClearAudio(ids, sessions), cutoff) == OldIds(sessions, cutoff)
  {
    var cleared := ClearAudio(ids, sessions);
    assert forall i :: 0 <= i < |sessions| ==>
      cleared[i].id == sessions[i].id && cleared[i].startTime == sessions[i].startTime;
    forall id | id in OldIds(sessions, cutoff) ensures id in OldIds(cleared, cutoff) {
      var i :| 0 <= i < |sessions| && sessions[i].startTime < cutoff && sessions[i].id == id;
      assert cleared[i].id == id;
    }
  }

  lemma {:induction false} MatchedIsEmptiness(sessions: seq<CallSession>, cutoff: int)
    ensures Matched(sessions, cutoff) == 0 <==> OldIds(sessions, cutoff) == {}
  {
    if sessions != [] {
      MatchedIsEmptiness(sessions[1..], cutoff);
      if sessions[0].startTime < cutoff {
        assert sessions[0].id in OldIds(sessions, cutoff);
      } else {
        assert forall i :: 0 < i < |sessions| ==> sessions[i] == sessions[1..][i - 1];
        assert OldIds(sessions, cutoff) == OldIds(sessions[1..], cutoff);
      }
    }
  }

  /** The tables after a real run. */
  ghost function AfterRun(sessions: seq<CallSession>, turns: seq<TurnRow>, cutoff: int)
    : (seq<CallSession>, seq<TurnRow>)
  {
    var ids := OldIds(sessions, cutoff);
    if Matched(sessions, cutoff) > 0 then (ClearAudio(ids, sessions), PurgeTurns(ids, turns)) else (sessions, turns)
  }

  lemma NothingOldNothingChanges(sessions: seq<CallSession>, turns: seq<TurnRow>, cutoff: int)
    ensures AfterRun(sessions, turns, cutoff) ==
            (ClearAudio(OldIds(sessions, cutoff), sessions), PurgeTurns(OldIds(sessions, cutoff), turns))
  {
    MatchedIsEmptiness(sessions, cutoff);
    if Matched(sessions, cutoff) == 0 {
      assert ClearAudio({}, sessions) == sessions;
      assert PurgeTurns({}, turns) == turns;
    }
  }

  /** Runs compose: an earlier cutoff before a later one changes nothing of what the later one leaves. */
  lemma RunsCompose(sessions: seq<CallSession>, turns: seq<TurnRow>, c1: int, c2: int)
    requires c1 <= c2
    ensures var (s1, t1) := AfterRun(sessions, turns, c1); AfterRun(s1, t1, c2) == AfterRun(sessions, turns, c2)
  {
    var (s1, t1) := AfterRun(sessions, turns, c1);
    var ids1, ids2 := OldIds(sessions, c1), OldIds(sessions, c2);
    NothingOldNothingChanges(sessions, turns, c1);
    NothingOldNothingChanges(sessions, turns, c2);
    NothingOldNothingChanges(s1, t1, c2);
    OldIdsGrow(sessions, c1, c2);
    ClearAudioKeepsAges(ids1, sessions, c2);
    assert ClearAudio(ids2, ClearAudio(ids1, sessions)) == ClearAudio(ids2, sessions);
    assert PurgeTurns(ids2, PurgeTurns(ids1, turns)) == PurgeTurns(ids2, turns);
  }

  /** A second run at the same cutoff changes no turn and reports none. */
  lemma SecondRunChangesNothing(sessions: seq<CallSession>, turns: seq<TurnRow>, cutoff: int)
    ensures var (s1, t1) := AfterRun(sessions, turns, cutoff);
            AfterRun(s1, t1, cutoff) == (s1, t1) && RowCount(OldIds(s1, cutoff), t1) == 0
  {
    var (s1, t1) := AfterRun(sessions, turns, cutoff);
    RunsCompose(sessions, turns, cutoff, cutoff);
    NothingOldNothingChanges(sessions, turns, cutoff);
    NothingOldNothingChanges(s1, t1, cutoff);
    RowCountIsDifferences(OldIds(s1, cutoff), t1);
    SameHasNoDifferences(t1);
  }

  lemma {:induction false} SameHasNoDifferences(turns: seq<TurnRow>)
    ensures Differences(turns, turns) == 0
  {
    if turns != [] {
      SameHasNoDifferences(turns[1..]);
    }
  }

  // ---------- transcripts and blobs ----------

  ghost predicate SafeTranscript(t: TurnRow) {
    t.transcript.Some? ==> IsMasked(t.transcript.value) || t.transcript.value == PURGED
  }

  lemma PurgedHasNoDigits()
    ensures !HasMatch(FourDigits, PURGED)
  {
    forall i: nat, j: nat ensures !IsMatch(FourDigits, PURGED, i, j) {
      assert i < |PURGED| ==> !In(Digits, PURGED[i]);
    }
  }

  /** Masked or purged transcripts stay so under retention, and every one of them would pass the
      outbound guard. */
  lemma RetainedTranscriptsAreSafe(ids: set<nat>, turns: seq<TurnRow>)
    requires forall i :: 0 <= i < |turns| ==> SafeTranscript(turns[i])
    ensures forall i :: 0 <= i < |turns| ==>
              var t := PurgeTurns(ids, turns)[i];
              SafeTranscript(t) && (t.transcript.Some? ==> CheckOutbound(t.transcript.value) == Authorized)
  {
    forall i | 0 <= i < |turns|
      ensures var t := PurgeTurns(ids, turns)[i];
              SafeTranscript(t) && (t.transcript.Some? ==> CheckOutbound(t.transcript.value) == Authorized)
    {
      assert SafeTranscript(turns[i]);
      var t := PurgeTurns(ids, turns)[i];
      if t.transcript.Some? {
        if t.transcript.value == PURGED {
          PurgedHasNoDigits();
          CleanPassesTheGuard(PURGED);
        } else {
          var text :| t.transcript.value == Mask(text);
          MaskedPassesTheGuard(text);
        }
      }
    }
  }

  /** The pointers that a run takes are exactly those of the calls older than the cutoff. */
  lemma {:induction false} UrlsOfIds(ids: set<nat>, sessions: seq<CallSession>, u: string)
    ensures u in OldUrls(ids, sessions) <==>
            exists i :: 0 <= i < |sessions| && sessions[i].id in ids && sessions[i].audioUrl == Some(u)
  {
    if sessions != [] {
      UrlsOfIds(ids, sessions[1..], u);
      if u in OldUrls(ids, sessions[1..]) {
        var i :| 0 <= i < |sessions| - 1 && sessions[1..][i].id in ids && sessions[1..][i].audioUrl == Some(u);
        assert sessions[i + 1].id in ids && sessions[i + 1].audioUrl == Some(u);
      }
      if i :| 0 < i < |sessions| && sessions[i].id in ids && sessions[i].audioUrl == Some(u) {
        assert sessions[1..][i - 1] == sessions[i];
      }
    }
  }

  lemma OldUrlsExactly(sessions: seq<CallSession>, cutoff: int, u: string)
    requires UniqueIds(sessions)
    ensures u in OldUrls(OldIds(sessions, cutoff), sessions) <==>
            exists i :: 0 <= i < |sessions| && sessions[i].startTime < cutoff && sessions[i].audioUrl == Some(u)
  {
    UrlsOfIds(OldIds(sessions, cutoff), sessions, u);
    forall i | 0 <= i < |sessions|
      ensures sessions[i].id in OldIds(sessions, cutoff) <==> sessions[i].startTime < cutoff
    {
      if sessions[i].id in OldIds(sessions, cutoff) {
        var j :| 0 <= j < |sessions| && sessions[j].startTime < cutoff && sessions[j].id == sessions[i].id;
        assert i < j || j < i || i == j;
      }
    }
  }

  /** The recordings a run removes. */
  ghost function Removed(bucket: string, sessions: seq<CallSession>, cutoff: int, unreachable: set<string>)
    : set<string>
  {
    Deleted(bucket, OldUrls(OldIds(sessions, cutoff), sessions), unreachable)
  }

  /** The recording whose printed URL a call older than the cutoff points to is removed. */
  lemma RecordingIsRemoved(scheme: string, endpoint: string, bucket: string, key: string, sessions: seq<CallSession>,
                           i: nat, cutoff: int, unreachable: set<string>)
    requires scheme in {"http", "https"} && PlainName(endpoint) && PlainName(bucket) && endpoint != bucket
    requires UniqueIds(sessions) && i < |sessions| && sessions[i].startTime < cutoff
    requires sessions[i].audioUrl == Some(Url(scheme, endpoint, bucket, key))
    requires Url(scheme, endpoint, bucket, key) !in unreachable
    ensures key in Removed(bucket, sessions, cutoff, unreachable)
  {
    var url := Url(scheme, endpoint, bucket, key);
    KeyInUrl(scheme, endpoint, bucket, key);
    OldUrlsExactly(sessions, cutoff, url);
    var urls := OldUrls(OldIds(sessions, cutoff), sessions);
    var j :| 0 <= j < |urls| && urls[j] == url;
    assert urls[j] !in unreachable;
  }

  /** Every pointer is a URL that the store has printed. */
  ghost predicate PointersArePrinted(scheme: string, endpoint: string, bucket: string, sessions: seq<CallSession>) {
    forall i :: 0 <= i < |sessions| && sessions[i].audioUrl.Some? ==>
      exists key :: sessions[i].audioUrl.value == Url(scheme, endpoint, bucket, key)
  }

  /** A recording to which no call older than the cutoff points stays in the store. */
  lemma OtherRecordingsStay(scheme: string, endpoint: string, bucket: string, key: string, sessions: seq<CallSession>,
                            cutoff: int, unreachable: set<string>)
    requires scheme in {"http", "https"} && PlainName(endpoint) && PlainName(bucket) && endpoint != bucket
    requires UniqueIds(sessions) && PointersArePrinted(scheme, endpoint, bucket, sessions)
    requires forall i :: 0 <= i < |sessions| && sessions[i].startTime < cutoff ==>
               sessions[i].audioUrl != Some(Url(scheme, endpoint, bucket, key))
    ensures key !in Removed(bucket, sessions, cutoff, unreachable)
  {
    var urls := OldUrls(OldIds(sessions, cutoff), sessions);
    if key in Removed(bucket, sessions, cutoff, unreachable) {
      var j :| 0 <= j < |urls| && urls[j] !in unreachable && KeyIn(bucket, urls[j]) == key;
      OldUrlsExactly(sessions, cutoff, urls[j]);
      var i :| 0 <= i < |sessions| && sessions[i].startTime < cutoff && sessions[i].audioUrl == Some(urls[j]);
      var other :| urls[j] == Url(scheme, endpoint, bucket, other);
      KeyInUrl(scheme, endpoint, bucket, other);
    }
  }

  lemma OldIdsCons(sessions: seq<CallSession>, cutoff: int)
    requires sessions != []
    ensures OldIds(sessions, cutoff) ==
            OldIds(sessions[1..], cutoff) + if sessions[0].startTime < cutoff then {sessions[0].id} else {}
  {
    var rest := sessions[1..];
    forall id | id in OldIds(rest, cutoff) ensures id in OldIds(sessions, cutoff) {
      var i :| 0 <= i < |rest| && rest[i].startTime < cutoff && rest[i].id == id;
      assert sessions[i + 1] == rest[i];
    }
    forall id | id in OldIds(sessions, cutoff)
      ensures id in OldIds(rest, cutoff) || (id == sessions[0].id && sessions[0].startTime < cutoff)
    {
      var i :| 0 <= i < |sessions| && sessions[i].startTime < cutoff && sessions[i].id == id;
      assert i > 0 ==> rest[i - 1] == sessions[i];
    }
  }

  /** The report counts the calls older than the cutoff. */
  lemma {:induction false} MatchedCounts(sessions: seq<CallSession>, cutoff: int)
    requires UniqueIds(sessions)
    ensures Matched(sessions, cutoff) == |OldIds(sessions, cutoff)|
  {
    if sessions != [] {
      OldIdsCons(sessions, cutoff);
      MatchedCounts(sessions[1..], cutoff);
      assert forall j :: 0 <= j < |sessions| - 1 ==> sessions[1..][j].id != sessions[0].id;
      assert sessions[0].id !in OldIds(sessions[1..], cutoff);
    }
  }
}
