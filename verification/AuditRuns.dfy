/** Whole histories of verification. Between two verifications anybody may have rewritten the log; the
    checkpoints still make sure that what was once reported as ok is never taken back. */
module AuditRuns {
  import opened Results
  import opened Texts
  import opened CanonicalJson
  import opened AuditPayload
  import opened AuditChain
  import opened Checkpoints
  import opened AuditVerifier
  import opened AuditWriter

  /* ---- arbitrary rewrites, overlapping verifications ---- */

  /** One verification: the document, and whatever the log showed for it at that moment. */
  datatype Visit = Visit(organizationId: Text, documentId: Text, log: seq<AuditEvent>, evidence: Evidence)

  function ReportOn(h: Hashing, v: Visit, checkpoints: seq<Checkpoint>): Report {
    ReportOf(h, v.log, v.evidence, true, v.organizationId, v.documentId, checkpoints)
  }

  /** The checkpoint of the last event. */
  function HeadOf(v: Visit): Checkpoint
    requires v.log != []
  {
    Anchor(v.organizationId, v.documentId, SortBySequence(v.log)[|v.log| - 1])
  }

  /** The checkpoints after a verification has anchored, or has not. */
  function StoreAfter(v: Visit, ok: bool, checkpoints: seq<Checkpoint>): seq<Checkpoint> {
    if ok && v.log != [] && PutSpec(checkpoints, HeadOf(v)) == Stored then checkpoints + [HeadOf(v)] else checkpoints
  }

  /** A verification that nobody interrupts reads and anchors on the same checkpoints. */
  lemma UninterruptedVisit(h: Hashing, v: Visit, checkpoints: seq<Checkpoint>)
    ensures Anchored(h, v.log, v.evidence, true, v.organizationId, v.documentId, checkpoints)
            == StoreAfter(v, ReportOn(h, v, checkpoints).ok, checkpoints)
  {
  }

  /** A run of verifications in the order in which they anchor, with the checkpoints before, between and
      after them. The k-th one compared with the checkpoints as they were when `seen[k]` others had
      anchored; those it did not see overlapped with it. There are no checkpoints at first. */
  datatype History = History(visits: seq<Visit>, seen: seq<nat>, stores: seq<seq<Checkpoint>>, oks: seq<bool>)

  ghost predicate Follows(h: Hashing, run: History, k: nat) {
    && k < |run.visits| && k < |run.oks| && k < |run.seen| && k + 1 < |run.stores| && run.seen[k] <= k
    && run.oks[k] == ReportOn(h, run.visits[k], run.stores[run.seen[k]]).ok
    && run.stores[k + 1] == StoreAfter(run.visits[k], run.oks[k], run.stores[k])
  }

  ghost predicate IsHistory(h: Hashing, run: History) {
    && |run.stores| == |run.visits| + 1 && |run.oks| == |run.visits| && |run.seen| == |run.visits|
    && run.stores[0] == []
    && (forall k :: 0 <= k < |run.visits| ==> Follows(h, run, k))
  }

  /** Any visits, overlapping in any way, make up a run. */
  lemma {:induction false} EveryRunHasAHistory(h: Hashing, visits: seq<Visit>, seen: seq<nat>) returns (run: History)
    requires |seen| == |visits| && forall k :: 0 <= k < |seen| ==> seen[k] <= k
    ensures IsHistory(h, run) && run.visits == visits && run.seen == seen
  {
    if visits == [] {
      run := History([], [], [[]], []);
    } else {
      var n := |visits| - 1;
      var before := EveryRunHasAHistory(h, visits[..n], seen[..n]);
      run := OneMoreVisit(h, before, visits[n], seen[n]);
      OneMoreVisitFollows(h, before, visits[n], seen[n]);
    }
  }

  ghost function OneMoreVisit(h: Hashing, run: History, v: Visit, seen: nat): History
    requires seen < |run.stores|
  {
    var ok := ReportOn(h, v, run.stores[seen]).ok;
    History(run.visits + [v], run.seen + [seen], run.stores + [StoreAfter(v, ok, run.stores[|run.stores| - 1])], run.oks + [ok])
  }

  lemma OneMoreVisitFollows(h: Hashing, run: History, v: Visit, seen: nat)
    requires IsHistory(h, run) && seen <= |run.visits|
    ensures IsHistory(h, OneMoreVisit(h, run, v, seen))
  {
    var longer := OneMoreVisit(h, run, v, seen);
    forall k | 0 <= k < |run.visits|
      ensures Follows(h, longer, k)
    {
      assert Follows(h, run, k);
      EarlierVisitFollows(h, run, longer, k);
    }
  }

  lemma EarlierVisitFollows(h: Hashing, run: History, longer: History, k: nat)
    requires Follows(h, run, k)
    requires run.visits <= longer.visits && run.seen <= longer.seen && run.stores <= longer.stores && run.oks <= longer.oks
    ensures Follows(h, longer, k)
  {
  }

  predicate SameDocument(a: Visit, b: Visit) {
    a.organizationId == b.organizationId && a.documentId == b.documentId
  }

  ghost predicate Hashes(h: Hashing, texts: set<Text>, v: Visit) {
    AllReadable(v.log) && Covers(h, texts, v.log)
  }

  /** The log has the latest checkpoint of its document at its place. */
  predicate ContainsLatest(v: Visit, checkpoints: seq<Checkpoint>) {
    var latest := LatestOf(checkpoints, v.organizationId, v.documentId);
    latest.Some? ==> 0 <= latest.value.sequence < |v.log| && v.log[latest.value.sequence].eventHash == latest.value.eventHash
  }

  /** The comparison a verification made when it read would still pass when it anchors. */
  predicate Confirmed(run: History, k: nat)
    requires k < |run.visits| && k < |run.stores|
  {
    ContainsLatest(run.visits[k], run.stores[k])
  }

  /** When the checkpoint that was read is still the latest one at anchoring, the comparison still passes. */
  lemma UndisturbedIsConfirmed(h: Hashing, run: History, k: nat)
    requires IsHistory(h, run) && k < |run.visits| && run.oks[k] && run.seen[k] <= k
    requires var v := run.visits[k];
             LatestOf(run.stores[run.seen[k]], v.organizationId, v.documentId) == LatestOf(run.stores[k], v.organizationId, v.documentId)
    ensures Confirmed(run, k)
  {
    assert Follows(h, run, k);
    PassingContainsLatest(h, run.visits[k], run.stores[run.seen[k]]);
  }

  lemma PassingContainsLatest(h: Hashing, v: Visit, checkpoints: seq<Checkpoint>)
    requires ReportOn(h, v, checkpoints).ok
    ensures ContainsLatest(v, checkpoints)
  {
    OkExactlyWhenValid(h, v.log, v.evidence, true, v.organizationId, v.documentId, checkpoints);
  }

  lemma OkIsChained(h: Hashing, v: Visit, checkpoints: seq<Checkpoint>)
    requires ReportOn(h, v, checkpoints).ok
    ensures v.log != [] && Chained(h, v.log)
  {
    OkExactlyWhenValid(h, v.log, v.evidence, true, v.organizationId, v.documentId, checkpoints);
  }

  lemma ChainIsSorted(h: Hashing, log: seq<AuditEvent>)
    requires Chained(h, log)
    ensures SortBySequence(log) == log
  {
    forall i | 0 <= i < |log|
      ensures log[i].sequence == i
    {
      assert LinkHolds(h, log, i);
    }
    NumberedIsSorted(log, 0);
  }

  /** A sound chain ends in the event that is anchored. */
  lemma OkHead(h: Hashing, run: History, k: nat)
    requires IsHistory(h, run) && k < |run.visits| && run.oks[k]
    ensures var v := run.visits[k];
            && v.log != [] && Chained(h, v.log)
            && HeadOf(v) == Checkpoint(v.organizationId, v.documentId, |v.log| - 1, v.log[|v.log| - 1].eventHash)
  {
    assert Follows(h, run, k);
    var v := run.visits[k];
    OkIsChained(h, v, run.stores[run.seen[k]]);
    ChainHead(h, v);
  }

  lemma ChainHead(h: Hashing, v: Visit)
    requires v.log != [] && Chained(h, v.log)
    ensures HeadOf(v) == Checkpoint(v.organizationId, v.documentId, |v.log| - 1, v.log[|v.log| - 1].eventHash)
  {
    ChainIsSorted(h, v.log);
    assert LinkHolds(h, v.log, |v.log| - 1);
  }

  /* ---- the anchored head is the latest ---- */

  lemma AnchoringIsSafe(checkpoints: seq<Checkpoint>, anchor: Checkpoint, latest: Option<Checkpoint>)
    requires latest == LatestOf(checkpoints, anchor.organizationId, anchor.documentId)
    requires latest.Some? ==> latest.value.sequence < anchor.sequence || latest.value == anchor
    ensures PutSpec(checkpoints, anchor) != Conflict
    ensures var after := if PutSpec(checkpoints, anchor) == Stored then checkpoints + [anchor] else checkpoints;
            LatestOf(after, anchor.organizationId, anchor.documentId) == Some(anchor)
  {
    PutLatest(checkpoints, anchor, anchor.organizationId, anchor.documentId);
  }

  /** Anchoring a confirmed report never conflicts with a stored checkpoint, and makes its head the latest one. */
  lemma AnchoringNeverConflicts(h: Hashing, run: History, k: nat)
    requires IsHistory(h, run) && k < |run.visits| && run.oks[k] && Confirmed(run, k)
    ensures run.visits[k].log != []
    ensures PutSpec(run.stores[k], HeadOf(run.visits[k])) != Conflict
    ensures LatestOf(run.stores[k + 1], run.visits[k].organizationId, run.visits[k].documentId) == Some(HeadOf(run.visits[k]))
  {
    OkHead(h, run, k);
    var v := run.visits[k];
    AnchoringIsSafe(run.stores[k], HeadOf(v), LatestOf(run.stores[k], v.organizationId, v.documentId));
    StoresFollow(h, run, k);
  }

  lemma StoresFollow(h: Hashing, run: History, k: nat)
    requires IsHistory(h, run) && k < |run.visits|
    ensures run.stores[k + 1] == StoreAfter(run.visits[k], run.oks[k], run.stores[k])
  {
    assert Follows(h, run, k);
  }

  /** Any other verification leaves the document's latest checkpoint alone. */
  lemma OthersLeaveLatest(v: Visit, ok: bool, checkpoints: seq<Checkpoint>, organizationId: Text, documentId: Text)
    requires !ok || v.organizationId != organizationId || v.documentId != documentId
    ensures LatestOf(StoreAfter(v, ok, checkpoints), organizationId, documentId) == LatestOf(checkpoints, organizationId, documentId)
  {
    if ok && v.log != [] {
      PutLatest(checkpoints, HeadOf(v), organizationId, documentId);
    }
  }

  /** Until the next ok report on a document its latest checkpoint stays. */
  lemma {:induction false} LatestStays(h: Hashing, run: History, of: Visit, i: nat, k: nat)
    requires IsHistory(h, run) && i <= k <= |run.visits|
    requires forall q :: i <= q < k && SameDocument(run.visits[q], of) ==> !run.oks[q]
    ensures LatestOf(run.stores[k], of.organizationId, of.documentId) == LatestOf(run.stores[i], of.organizationId, of.documentId)
  {
    if k > i {
      LatestStays(h, run, of, i, k - 1);
      StoresFollow(h, run, k - 1);
      OthersLeaveLatest(run.visits[k - 1], run.oks[k - 1], run.stores[k - 1], of.organizationId, of.documentId);
    }
  }

  /** Every checkpoint was anchored by an ok report on its document. */
  lemma {:induction false} CheckpointsComeFromReports(h: Hashing, run: History, k: nat, c: Checkpoint)
    requires IsHistory(h, run) && k <= |run.visits| && c in run.stores[k]
    ensures exists i :: 0 <= i < k && run.oks[i] && run.visits[i].log != [] && HeadOf(run.visits[i]) == c
  {
    if k > 0 {
      StoresFollow(h, run, k - 1);
      if c in run.stores[k - 1] {
        CheckpointsComeFromReports(h, run, k - 1, c);
      } else {
        assert run.oks[k - 1] && HeadOf(run.visits[k - 1]) == c;
      }
    }
  }

  /* ---- what is ok once stays ---- */

  /** The earlier chain is a prefix of the later one on every hashed member. */
  ghost predicate Extends(run: History, i: nat, j: nat)
    requires i < |run.visits| && j < |run.visits|
  {
    AgreeUpTo(run.visits[i].log, run.visits[j].log, |run.visits[i].log|)
  }

  lemma AgreementTransitive(a: seq<AuditEvent>, b: seq<AuditEvent>, c: seq<AuditEvent>)
    requires AgreeUpTo(a, b, |a|) && AgreeUpTo(b, c, |b|)
    ensures AgreeUpTo(a, c, |a|)
  {
  }

  /** A confirmed report extends the one whose head is the latest checkpoint, exactly because it holds that head. */
  lemma HeldHeadIsExtended(h: Hashing, texts: set<Text>, run: History, i: nat, j: nat)
    requires TellsInstants(h) && CollisionFree(h, texts) && IsHistory(h, run)
    requires i < |run.visits| && j < |run.visits| && Hashes(h, texts, run.visits[i]) && Hashes(h, texts, run.visits[j])
    requires run.oks[i] && run.oks[j] && SameDocument(run.visits[j], run.visits[i])
    ensures run.visits[i].log != []
    ensures LatestOf(run.stores[j], run.visits[j].organizationId, run.visits[j].documentId) == Some(HeadOf(run.visits[i])) ==>
              (Confirmed(run, j) <==> Extends(run, i, j))
  {
    OkHead(h, run, i);
    OkHead(h, run, j);
    var a, b := run.visits[i].log, run.visits[j].log;
    if |a| <= |b| && b[|a| - 1].eventHash == a[|a| - 1].eventHash {
      SameHashSamePast(h, texts, a, b, |a|);
    }
  }

  ghost predicate AllConfirmed(run: History, of: Visit, from: nat, to: nat)
    requires to <= |run.visits| < |run.stores| && |run.oks| == |run.visits|
  {
    forall k :: from <= k < to && run.oks[k] && SameDocument(run.visits[k], of) ==> Confirmed(run, k)
  }

  /** With every ok report on the document confirmed when it anchored, each extends the ones before it. */
  lemma {:induction false} ConfirmedReportsGrow(h: Hashing, texts: set<Text>, run: History, i: nat, j: nat)
    requires TellsInstants(h) && CollisionFree(h, texts) && forall k :: 0 <= k < |run.visits| ==> Hashes(h, texts, run.visits[k])
    requires IsHistory(h, run) && i < j < |run.visits| && SameDocument(run.visits[j], run.visits[i])
    requires run.oks[i] && run.oks[j] && AllConfirmed(run, run.visits[i], i, j + 1)
    ensures Extends(run, i, j)
    decreases j - i
  {
    if q :| i < q < j && SameDocument(run.visits[q], run.visits[i]) && run.oks[q] {
      ConfirmedReportsGrow(h, texts, run, i, q);
      ConfirmedReportsGrow(h, texts, run, q, j);
      AgreementTransitive(run.visits[i].log, run.visits[q].log, run.visits[j].log);
    } else {
      AnchoringNeverConflicts(h, run, i);
      LatestStays(h, run, run.visits[i], i + 1, j);
      HeldHeadIsExtended(h, texts, run, i, j);
    }
  }

  /** Of any two ok reports on a document the earlier chain is a prefix of the later one, whatever was done
      to the log in between, exactly when every ok report on it would still have passed its comparison at
      the moment it anchored. */
  lemma OkReportsOnlyGrow(h: Hashing, texts: set<Text>, run: History, of: Visit)
    requires TellsInstants(h) && CollisionFree(h, texts) && forall k :: 0 <= k < |run.visits| ==> Hashes(h, texts, run.visits[k])
    requires IsHistory(h, run)
    ensures (forall i, j :: 0 <= i < j < |run.visits| && IsOkOn(run, i, of) && IsOkOn(run, j, of) ==> Extends(run, i, j))
            <==> AllConfirmed(run, of, 0, |run.visits|)
  {
    if AllConfirmed(run, of, 0, |run.visits|) {
      forall i, j | 0 <= i < j < |run.visits| && IsOkOn(run, i, of) && IsOkOn(run, j, of)
        ensures Extends(run, i, j)
      {
        ConfirmedReportsGrow(h, texts, run, i, j);
      }
    } else {
      var j :| 0 <= j < |run.visits| && run.oks[j] && SameDocument(run.visits[j], of) && !Confirmed(run, j);
      var i := UnconfirmedMisses(h, texts, run, j);
      assert IsOkOn(run, i, of) && IsOkOn(run, j, of);
    }
  }

  predicate IsOkOn(run: History, k: nat, of: Visit)
    requires k < |run.visits| == |run.oks|
  {
    run.oks[k] && SameDocument(run.visits[k], of)
  }

  lemma UnconfirmedMisses(h: Hashing, texts: set<Text>, run: History, j: nat) returns (i: nat)
    requires TellsInstants(h) && CollisionFree(h, texts) && forall k :: 0 <= k < |run.visits| ==> Hashes(h, texts, run.visits[k])
    requires IsHistory(h, run) && j < |run.visits| && run.oks[j] && !Confirmed(run, j)
    ensures i < j && run.oks[i] && SameDocument(run.visits[i], run.visits[j]) && !Extends(run, i, j)
  {
    var v := run.visits[j];
    var c := LatestOf(run.stores[j], v.organizationId, v.documentId).value;
    CheckpointsComeFromReports(h, run, j, c);
    i :| 0 <= i < j && run.oks[i] && run.visits[i].log != [] && HeadOf(run.visits[i]) == c;
    HeldHeadIsExtended(h, texts, run, i, j);
  }

  /** Verifications one at a time, each reading after the one before has anchored, are all confirmed. */
  lemma OneAtATime(h: Hashing, run: History, of: Visit)
    requires IsHistory(h, run) && forall k :: 0 <= k < |run.visits| ==> run.seen[k] == k
    ensures AllConfirmed(run, of, 0, |run.visits|)
  {
    forall k | 0 <= k < |run.visits| && run.oks[k]
      ensures Confirmed(run, k)
    {
      UndisturbedIsConfirmed(h, run, k);
    }
  }

  /** Overlapping verifications need not agree: with the log rewritten between their reads, two
      verifications that both found no checkpoint report different histories as ok. */
  lemma OverlappingReportsDisagree(h: Hashing, a: Draft, b: Draft, evidence: Evidence) returns (run: History)
    requires WellFormed(Obj(a.payload)) && WellFormed(Obj(b.payload)) && ApprovedPayload(a.payload, 0) && ApprovedPayload(b.payload, 0)
    requires a.organizationId == b.organizationId && a.documentId == b.documentId && a.kind != b.kind
    requires a.kind != DOCUMENT_FINALIZED && b.kind != DOCUMENT_FINALIZED
    ensures IsHistory(h, run) && |run.visits| == 2 && SameDocument(run.visits[0], run.visits[1])
    ensures run.oks[0] && run.oks[1] && !Extends(run, 0, 1)
  {
    var first := FirstEvent(h, a, evidence);
    var second := FirstEvent(h, b, evidence);
    run := BothSawNothing(h, first, second);
  }

  /** Ok as long as there are no checkpoints. */
  ghost predicate OkAlone(h: Hashing, v: Visit) {
    ReportOn(h, v, []).ok
  }

  lemma BothSawNothing(h: Hashing, first: Visit, second: Visit) returns (run: History)
    requires OkAlone(h, first) && OkAlone(h, second) && SameDocument(first, second)
    requires first.log != [] && second.log != [] && first.log[0].kind != second.log[0].kind
    ensures IsHistory(h, run) && |run.visits| == |run.oks| == 2 && run.visits[0] == first && run.visits[1] == second
    ensures run.oks[0] && run.oks[1] && !Extends(run, 0, 1)
  {
    run := TwoVisits(h, first, second);
    BothAreOk(h, run);
    DifferentStart(run.visits[0].log, run.visits[1].log);
  }

  lemma TwoVisits(h: Hashing, first: Visit, second: Visit) returns (run: History)
    ensures IsHistory(h, run) && |run.visits| == |run.oks| == |run.seen| == 2
    ensures run.visits[0] == first && run.visits[1] == second && run.seen[0] == 0 && run.seen[1] == 0
  {
    var visits, seen := [first, second], [0, 0];
    run := EveryRunHasAHistory(h, visits, seen);
  }

  lemma BothAreOk(h: Hashing, run: History)
    requires IsHistory(h, run) && |run.visits| == 2 && run.seen[0] == 0 && run.seen[1] == 0
    requires OkAlone(h, run.visits[0]) && OkAlone(h, run.visits[1])
    ensures run.oks[0] && run.oks[1]
  {
    OkOnNothing(h, run, 0);
    OkOnNothing(h, run, 1);
  }

  lemma OkOnNothing(h: Hashing, run: History, k: nat)
    requires IsHistory(h, run) && k < |run.visits| && run.seen[k] == 0 && OkAlone(h, run.visits[k])
    ensures run.oks[k]
  {
    assert Follows(h, run, k);
  }

  lemma DifferentStart(a: seq<AuditEvent>, b: seq<AuditEvent>)
    requires a != [] && b != [] && a[0].kind != b[0].kind
    ensures !AgreeUpTo(a, b, |a|)
  {
    assert AgreeUpTo(a, b, |a|) ==> AgreeOnHashed(a[0], b[0]);
  }

  /** A log that holds the first event of its document is ok as long as there are no checkpoints. */
  lemma FirstEvent(h: Hashing, draft: Draft, evidence: Evidence) returns (v: Visit)
    requires WellFormed(Obj(draft.payload)) && ApprovedPayload(draft.payload, 0) && draft.kind != DOCUMENT_FINALIZED
    ensures v.organizationId == draft.organizationId && v.documentId == draft.documentId
    ensures |v.log| == 1 && v.log[0].kind == draft.kind && OkAlone(h, v)
  {
    ApprovedIsStored(h, [], draft);
    assert EventsOf([], draft.organizationId, draft.documentId) == [];
    var e := NextEvent(h, None, draft).value;
    NextEventLinks(h, [], draft);
    assert [] + [e] == [e];
    v := Visit(draft.organizationId, draft.documentId, [e], evidence);
    OkExactlyWhenValid(h, v.log, evidence, true, v.organizationId, v.documentId, []);
  }

  /* ---- honest runs ---- */

  /** What an undisturbed system does, in any order and overlapping in any way: append drafts, verify
      documents up to the report, and anchor what was reported ok before. */
  datatype Act = Write(draft: Draft) | Check(organizationId: Text, documentId: Text, evidence: Evidence) | Settle(head: Checkpoint)

  /** `heads` are those of the verifications that were ok, whether they have anchored yet or not. */
  datatype Trail = Trail(events: seq<AuditEvent>, checkpoints: seq<Checkpoint>, heads: set<Checkpoint>)

  function VisitOf(t: Trail, organizationId: Text, documentId: Text, evidence: Evidence): Visit {
    Visit(organizationId, documentId, EventsOf(t.events, organizationId, documentId), evidence)
  }

  function ActOn(h: Hashing, t: Trail, act: Act): Trail {
    match act
    case Write(draft) => t.(events := After(h, t.events, draft))
    case Check(organizationId, documentId, evidence) =>
      var v := VisitOf(t, organizationId, documentId, evidence);
      if ReportOn(h, v, t.checkpoints).ok && v.log != [] then t.(heads := t.heads + {HeadOf(v)}) else t
    case Settle(head) =>
      if head in t.heads && PutSpec(t.checkpoints, head) == Stored then t.(checkpoints := t.checkpoints + [head]) else t
  }

  function Honest(h: Hashing, acts: seq<Act>): Trail {
    if acts == [] then Trail([], [], {}) else ActOn(h, Honest(h, acts[..|acts| - 1]), acts[|acts| - 1])
  }

  /** The checkpoint records an event that is still there. */
  ghost predicate StillThere(events: seq<AuditEvent>, c: Checkpoint) {
    var chain := EventsOf(events, c.organizationId, c.documentId);
    0 <= c.sequence < |chain| && chain[c.sequence].eventHash == c.eventHash
  }

  ghost predicate Sound(h: Hashing, t: Trail) {
    && EveryChainHolds(h, t.events)
    && (forall c :: c in t.checkpoints ==> c in t.heads)
    && (forall c :: c in t.heads ==> StillThere(t.events, c))
  }

  lemma AppendKeepsThere(h: Hashing, events: seq<AuditEvent>, draft: Draft, c: Checkpoint)
    requires StillThere(events, c)
    ensures StillThere(After(h, events, draft), c)
  {
    var r := AppendSpec(h, events, draft);
    if r.Ok? {
      EventsOfAppended(events, r.value, c.organizationId, c.documentId);
    }
  }

  lemma ActKeepsSound(h: Hashing, t: Trail, act: Act)
    requires Sound(h, t)
    ensures Sound(h, ActOn(h, t, act))
  {
    match act
    case Write(draft) =>
      AppendKeepsChains(h, t.events, draft);
      forall c | c in t.heads
        ensures StillThere(After(h, t.events, draft), c)
      {
        AppendKeepsThere(h, t.events, draft, c);
      }
    case Check(organizationId, documentId, evidence) =>
      var v := VisitOf(t, organizationId, documentId, evidence);
      if v.log != [] {
        CheckKeepsSound(h, t, v);
      }
    case Settle(_) =>
  }

  lemma CheckKeepsSound(h: Hashing, t: Trail, v: Visit)
    requires EveryChainHolds(h, t.events) && v.log == EventsOf(t.events, v.organizationId, v.documentId) && v.log != []
    ensures StillThere(t.events, HeadOf(v))
  {
    assert Chained(h, v.log);
    HeadIsThere(h, t.events, v);
  }

  lemma HeadIsThere(h: Hashing, events: seq<AuditEvent>, v: Visit)
    requires v.log == EventsOf(events, v.organizationId, v.documentId) && v.log != [] && Chained(h, v.log)
    ensures StillThere(events, HeadOf(v))
  {
    ChainHead(h, v);
  }

  lemma {:induction false} HonestIsSound(h: Hashing, acts: seq<Act>)
    ensures Sound(h, Honest(h, acts))
  {
    if acts != [] {
      HonestIsSound(h, acts[..|acts| - 1]);
      ActKeepsSound(h, Honest(h, acts[..|acts| - 1]), acts[|acts| - 1]);
    }
  }

  /** In an undisturbed system a document with events is reported ok exactly when its artifact matches its
      finalized events: no false alarm from the chain or from the checkpoints. */
  lemma HonestDocumentsAreOk(h: Hashing, acts: seq<Act>, organizationId: Text, documentId: Text, evidence: Evidence)
    ensures var t := Honest(h, acts);
            var log := EventsOf(t.events, organizationId, documentId);
            ReportOf(h, log, evidence, true, organizationId, documentId, t.checkpoints).ok
            <==> log != [] && forall i :: 0 <= i < |log| && log[i].kind == DOCUMENT_FINALIZED ==> ArtifactMatches(evidence, log[i])
  {
    var t := Honest(h, acts);
    var log := EventsOf(t.events, organizationId, documentId);
    HonestIsSound(h, acts);
    OkExactlyWhenValid(h, log, evidence, true, organizationId, documentId, t.checkpoints);
    var latest := LatestOf(t.checkpoints, organizationId, documentId);
    if latest.Some? {
      assert StillThere(t.events, latest.value);
    }
    assert Chained(h, log);
  }
  /** And nothing it has reported ok ever conflicts when it is anchored, however late. */
  lemma HonestHeadsNeverConflict(h: Hashing, acts: seq<Act>, head: Checkpoint)
    requires head in Honest(h, acts).heads
    ensures PutSpec(Honest(h, acts).checkpoints, head) != Conflict
  {
    HonestIsSound(h, acts);
    var t := Honest(h, acts);
    if row :| row in t.checkpoints && IsAt(row, head.organizationId, head.documentId, head.sequence) {
      assert StillThere(t.events, row) && StillThere(t.events, head);
      assert row == head;
    }
  }
}
