/** The verifier: it re-derives every link of a possibly edited list of events, compares the list with the
    latest checkpoint, and anchors the head of a list it found nothing wrong with. */
module AuditVerifier {
  import opened Results
  import opened Texts
  import opened CanonicalJson
  import opened AuditPayload
  import opened AuditChain
  import opened Checkpoints

  datatype FindingCode =
    | EmptyChain
    | SequenceReorder
    | SequenceGap
    | UnsupportedVersion
    | GenesisPreviousHashMismatch
    | PreviousHashMismatch
    | ForbiddenPayloadField
    | HashMismatch
    | ArtifactMissing
    | ArtifactDigestMismatch
    | CheckpointMismatch

  datatype Finding = Finding(code: FindingCode, sequence: Option<int>, eventId: Option<Text>)

  datatype Warning = CheckpointAnchoringDisabled | CheckpointStoreUnavailable

  datatype Report = Report(
    ok: bool, eventCount: nat, headEventHash: Option<Text>, headSequence: Option<int>, findings: seq<Finding>, warnings: seq<Warning>)

  /** The artifact row of the document and the hash of the bytes stored for it, as far as there are any. */
  datatype Evidence = NoArtifact | Artifact(digest: Text, storedDigest: Option<Text>)

  const FINALIZED_SHA256 := Ascii("finalizedSha256")

  function About(code: FindingCode, e: Option<AuditEvent>): Finding {
    match e
    case None => Finding(code, None, None)
    case Some(event) => Finding(code, Some(event.sequence), Some(event.id))
  }

  /* ---- what the findings are ---- */

  /** Array.prototype.sort by sequence, which is stable. */
  function InsertEvent(e: AuditEvent, sorted: seq<AuditEvent>): seq<AuditEvent> {
    if sorted == [] || e.sequence <= sorted[0].sequence then [e] + sorted
    else [sorted[0]] + InsertEvent(e, sorted[1..])
  }

  function SortBySequence(events: seq<AuditEvent>): (sorted: seq<AuditEvent>)
    ensures |sorted| == |events|
  {
    if events == [] then [] else InsertLength(events[0], SortBySequence(events[1..])); InsertEvent(events[0], SortBySequence(events[1..]))
  }

  lemma {:induction false} InsertLength(e: AuditEvent, sorted: seq<AuditEvent>)
    ensures |InsertEvent(e, sorted)| == |sorted| + 1
  {
    if sorted != [] {
      InsertLength(e, sorted[1..]);
    }
  }

  predicate Numbered(events: seq<AuditEvent>) {
    forall i :: 0 <= i < |events| ==> events[i].sequence == i
  }

  predicate Descends(events: seq<AuditEvent>) {
    exists i :: 0 < i < |events| && events[i].sequence < events[i - 1].sequence
  }

  /** The first event that does not carry its position as its number. */
  function FirstMisnumbered(events: seq<AuditEvent>, from: nat): Option<AuditEvent>
    requires from <= |events|
    decreases |events| - from
  {
    if from == |events| then None
    else if events[from].sequence != from then Some(events[from])
    else FirstMisnumbered(events, from + 1)
  }

  function SequenceFindings(events: seq<AuditEvent>): seq<Finding>
    requires events != []
  {
    if Numbered(events) then []
    else if Descends(events) then [About(SequenceReorder, Some(events[0]))]
    else [About(SequenceGap, FirstMisnumbered(events, 0))]
  }

  function FinalizedDigest(payload: Js): Option<Text> {
    if !IsRecord(payload) then None else StringMember(payload.members, FINALIZED_SHA256)
  }

  function StringMember(members: seq<Member>, key: Text): Option<Text> {
    if members == [] then None
    else if members[0].key == key then (if members[0].value.Str? then Some(members[0].value.text) else None)
    else StringMember(members[1..], key)
  }

  function ArtifactFindings(evidence: Evidence, e: AuditEvent): seq<Finding> {
    var digest := FinalizedDigest(e.payload);
    match evidence
    case NoArtifact => [About(ArtifactMissing, Some(e))]
    case Artifact(recorded, stored) =>
      (if digest.Some? && recorded != digest.value then [About(ArtifactDigestMismatch, Some(e))] else [])
      + (if stored == None then [About(ArtifactMissing, Some(e))]
         else if stored.value != recorded then [About(ArtifactDigestMismatch, Some(e))]
         else [])
  }

  /** What is wrong with how the i-th event is linked. */
  function PlaceFindings(sorted: seq<AuditEvent>, i: nat): seq<Finding>
    requires i < |sorted|
  {
    var e := sorted[i];
    (if e.chainVersion != SCHEMA_VERSION then [About(UnsupportedVersion, Some(e))] else [])
    + (if e.previousEventHash == PreviousHash(sorted, i) then []
       else [About(if i == 0 then GenesisPreviousHashMismatch else PreviousHashMismatch, Some(e))])
  }

  /** What is wrong with the event itself. */
  function ContentFindings(h: Hashing, e: AuditEvent): seq<Finding> {
    (if IsRecord(e.payload) && ApprovedPayload(e.payload.members, 0) then [] else [About(ForbiddenPayloadField, Some(e))])
    + (if EventHash(h, e) == Ok(e.eventHash) then [] else [About(HashMismatch, Some(e))])
  }

  function LinkFindings(h: Hashing, evidence: Evidence, sorted: seq<AuditEvent>, i: nat): seq<Finding>
    requires i < |sorted|
  {
    PlaceFindings(sorted, i) + ContentFindings(h, sorted[i])
    + (if sorted[i].kind == DOCUMENT_FINALIZED then ArtifactFindings(evidence, sorted[i]) else [])
  }

  function Gather(found: nat -> seq<Finding>, n: nat): seq<Finding> {
    if n == 0 then [] else Gather(found, n - 1) + found(n - 1)
  }

  /** The findings of the first n events. */
  function LinksFindings(h: Hashing, evidence: Evidence, sorted: seq<AuditEvent>, n: nat): seq<Finding>
    requires n <= |sorted|
  {
    Gather((i: nat) => if i < |sorted| then LinkFindings(h, evidence, sorted, i) else [], n)
  }

  function FindSequence(events: seq<AuditEvent>, sequence: int): Option<AuditEvent> {
    if events == [] then None
    else if events[0].sequence == sequence then Some(events[0])
    else FindSequence(events[1..], sequence)
  }

  function CheckpointFindings(sorted: seq<AuditEvent>, latest: Option<Checkpoint>): seq<Finding> {
    if latest == None then []
    else
      var at := FindSequence(sorted, latest.value.sequence);
      if at.Some? && at.value.eventHash == latest.value.eventHash then [] else [About(CheckpointMismatch, at)]
  }

  function Findings(h: Hashing, events: seq<AuditEvent>, evidence: Evidence, latest: Option<Checkpoint>): seq<Finding>
    requires events != []
  {
    FindingsOver(h, events, SortBySequence(events), evidence, latest)
  }

  function FindingsOver(h: Hashing, events: seq<AuditEvent>, sorted: seq<AuditEvent>, evidence: Evidence, latest: Option<Checkpoint>): seq<Finding>
    requires events != []
  {
    SequenceFindings(events) + LinksFindings(h, evidence, sorted, |sorted|) + CheckpointFindings(sorted, latest)
  }

  /* ---- dedupeFailures ---- */

  /** The text two findings are compared by; an absent id and the id "none" read the same. */
  function FindingKey(f: Finding): (FindingCode, Option<int>, Text) {
    (f.code, f.sequence, if f.eventId.Some? then f.eventId.value else Ascii("none"))
  }

  function KeysOf(findings: seq<Finding>): set<(FindingCode, Option<int>, Text)> {
    set f | f in findings :: FindingKey(f)
  }

  function Dedupe(findings: seq<Finding>): seq<Finding> {
    if findings == [] then []
    else
      var last := findings[|findings| - 1];
      var before := findings[..|findings| - 1];
      if FindingKey(last) in KeysOf(before) then Dedupe(before) else Dedupe(before) + [last]
  }

  method DedupeFindings(findings: seq<Finding>) returns (unique: seq<Finding>)
    ensures unique == Dedupe(findings)
  {
    var seen: set<(FindingCode, Option<int>, Text)> := {};
    unique := [];
    for i := 0 to |findings|
      invariant unique == Dedupe(findings[..i])
      invariant seen == KeysOf(findings[..i])
    {
      assert findings[..i + 1][..i] == findings[..i];
      assert findings[..i + 1] == findings[..i] + [findings[i]];
      var key := FindingKey(findings[i]);
      assert KeysOf(findings[..i + 1]) == KeysOf(findings[..i]) + {key};
      if key in seen {
        continue;
      }
      seen := seen + {key};
      unique := unique + [findings[i]];
    }
    assert findings[..|findings|] == findings;
  }

  lemma KeysSnoc(findings: seq<Finding>, last: Finding)
    ensures KeysOf(findings + [last]) == KeysOf(findings) + {FindingKey(last)}
  {
    assert forall f :: f in findings + [last] <==> f in findings || f == last;
    assert last in findings + [last];
  }

  /** No kind of finding is lost, and nothing is made up. */
  lemma {:induction false} DedupeLosesNoKind(findings: seq<Finding>)
    ensures KeysOf(Dedupe(findings)) == KeysOf(findings)
    ensures Dedupe(findings) == [] <==> findings == []
  {
    if findings != [] {
      var n := |findings| - 1;
      var before, last := findings[..n], findings[n];
      assert findings == before + [last];
      DedupeLosesNoKind(before);
      KeysSnoc(before, last);
      KeysSnoc(Dedupe(before), last);
    }
  }

  /** One finding of each kind is kept. */
  lemma {:induction false} DedupeKeepsOne(findings: seq<Finding>, i: nat, j: nat)
    requires i < j < |Dedupe(findings)|
    ensures FindingKey(Dedupe(findings)[i]) != FindingKey(Dedupe(findings)[j])
  {
    var n := |findings| - 1;
    var before, last := findings[..n], findings[n];
    if j < |Dedupe(before)| {
      DedupeKeepsOne(before, i, j);
    } else {
      DedupeLosesNoKind(before);
      assert Dedupe(before)[i] in Dedupe(before) && FindingKey(Dedupe(before)[i]) in KeysOf(Dedupe(before));
    }
  }

  /* ---- the report ---- */

  function ReportOf(h: Hashing, events: seq<AuditEvent>, evidence: Evidence, enabled: bool, organizationId: Text, documentId: Text,
                    checkpoints: seq<Checkpoint>): Report
  {
    if events == [] then Report(false, 0, None, None, [About(EmptyChain, None)], [])
    else
      var latest := if enabled then LatestOf(checkpoints, organizationId, documentId) else None;
      var findings := Dedupe(Findings(h, events, evidence, latest));
      var head := SortBySequence(events)[|events| - 1];
      var conflict := findings == [] && enabled && PutSpec(checkpoints, Anchor(organizationId, documentId, head)) == Conflict;
      Report(findings == [], |events|, Some(head.eventHash), Some(head.sequence), findings,
             if !enabled then [CheckpointAnchoringDisabled] else if conflict then [CheckpointStoreUnavailable] else [])
  }

  function Anchor(organizationId: Text, documentId: Text, head: AuditEvent): Checkpoint {
    Checkpoint(organizationId, documentId, head.sequence, head.eventHash)
  }

  /** The checkpoints after the verification. */
  function Anchored(h: Hashing, events: seq<AuditEvent>, evidence: Evidence, enabled: bool, organizationId: Text, documentId: Text,
                    checkpoints: seq<Checkpoint>): seq<Checkpoint>
  {
    if !enabled || !ReportOf(h, events, evidence, enabled, organizationId, documentId, checkpoints).ok then checkpoints
    else
      var anchor := Anchor(organizationId, documentId, SortBySequence(events)[|events| - 1]);
      if PutSpec(checkpoints, anchor) == Stored then checkpoints + [anchor] else checkpoints
  }

  /** verifyAuditChain. `enabled` says whether a checkpoint store is configured. */
  method VerifyAuditChain(h: Hashing, events: seq<AuditEvent>, evidence: Evidence, store: CheckpointStore, enabled: bool,
                          organizationId: Text, documentId: Text)
    returns (report: Report)
    requires OnePerPosition(store.records)
    modifies store
    ensures report == ReportOf(h, events, evidence, enabled, organizationId, documentId, old(store.records))
    ensures store.records == Anchored(h, events, evidence, enabled, organizationId, documentId, old(store.records))
    ensures OnePerPosition(store.records)
  {
    if |events| == 0 {
      return Report(false, 0, None, None, [About(EmptyChain, None)], []);
    }
    var latest: Option<Checkpoint> := None;
    if enabled {
      latest := store.GetLatest(organizationId, documentId);
    }
    var unique := CollectFindings(h, events, evidence, latest);
    var head := SortBySequence(events)[|events| - 1];
    var warnings := AnchorHead(store, enabled, |unique| == 0, Anchor(organizationId, documentId, head));
    return Report(|unique| == 0, |events|, Some(head.eventHash), Some(head.sequence), unique, warnings);
  }

  method CollectFindings(h: Hashing, events: seq<AuditEvent>, evidence: Evidence, latest: Option<Checkpoint>) returns (unique: seq<Finding>)
    requires events != []
    ensures unique == Dedupe(Findings(h, events, evidence, latest))
  {
    var sorted := SortBySequence(events);
    var order := CheckSequence(events);
    var links := CheckLinks(h, evidence, sorted);
    var anchored := CompareCheckpoint(sorted, latest);
    unique := DedupeFindings(order + links + anchored);
  }

  method CheckSequence(events: seq<AuditEvent>) returns (failures: seq<Finding>)
    requires events != []
    ensures failures == SequenceFindings(events)
  {
    failures := [];
    if exists i :: 0 <= i < |events| && events[i].sequence != i {
      if exists i :: 0 < i < |events| && events[i].sequence < events[i - 1].sequence {
        failures := failures + [About(SequenceReorder, Some(events[0]))];
      } else {
        failures := failures + [About(SequenceGap, FirstMisnumbered(events, 0))];
      }
    }
  }

  /** The loop over the sorted events. */
  method CheckLinks(h: Hashing, evidence: Evidence, sorted: seq<AuditEvent>) returns (failures: seq<Finding>)
    ensures failures == LinksFindings(h, evidence, sorted, |sorted|)
  {
    failures := [];
    for index := 0 to |sorted|
      invariant failures == LinksFindings(h, evidence, sorted, index)
    {
      var found := CheckLink(h, evidence, sorted, index);
      failures := failures + found;
    }
  }

  method CheckLink(h: Hashing, evidence: Evidence, sorted: seq<AuditEvent>, index: nat) returns (found: seq<Finding>)
    requires index < |sorted|
    ensures found == LinkFindings(h, evidence, sorted, index)
  {
    var place := CheckPlace(sorted, index);
    var content := CheckContent(h, sorted[index]);
    found := place + content;
    if sorted[index].kind == DOCUMENT_FINALIZED {
      var artifact := VerifyFinalizedArtifact(evidence, sorted[index]);
      found := found + artifact;
    }
  }

  method CompareCheckpoint(sorted: seq<AuditEvent>, latest: Option<Checkpoint>) returns (failures: seq<Finding>)
    ensures failures == CheckpointFindings(sorted, latest)
  {
    failures := [];
    if latest.Some? {
      var atSequence := FindSequence(sorted, latest.value.sequence);
      if atSequence == None || atSequence.value.eventHash != latest.value.eventHash {
        failures := failures + [About(CheckpointMismatch, atSequence)];
      }
    }
  }

  /** Anchors the head of a list without failures; a conflict in the store is only a warning. */
  method AnchorHead(store: CheckpointStore, enabled: bool, ok: bool, anchor: Checkpoint) returns (warnings: seq<Warning>)
    requires OnePerPosition(store.records)
    modifies store
    ensures OnePerPosition(store.records)
    ensures store.records == if ok && enabled && PutSpec(old(store.records), anchor) == Stored then old(store.records) + [anchor] else old(store.records)
    ensures warnings == if !enabled then [CheckpointAnchoringDisabled]
                        else if ok && PutSpec(old(store.records), anchor) == Conflict then [CheckpointStoreUnavailable]
                        else []
  {
    warnings := [];
    if !enabled {
      warnings := warnings + [CheckpointAnchoringDisabled];
    }
    if ok && enabled {
      var outcome := store.PutIfAbsent(anchor);
      if outcome == Conflict {
        warnings := warnings + [CheckpointStoreUnavailable];
      }
    }
  }

  method CheckPlace(sorted: seq<AuditEvent>, index: nat) returns (failures: seq<Finding>)
    requires index < |sorted|
    ensures failures == PlaceFindings(sorted, index)
  {
    failures := [];
    var event := sorted[index];
    if event.chainVersion != SCHEMA_VERSION {
      failures := failures + [About(UnsupportedVersion, Some(event))];
    }
    var expectedPrevious := if index == 0 then GENESIS else sorted[index - 1].eventHash;
    if index == 0 && event.previousEventHash != GENESIS {
      failures := failures + [About(GenesisPreviousHashMismatch, Some(event))];
    } else if event.previousEventHash != expectedPrevious {
      failures := failures + [About(PreviousHashMismatch, Some(event))];
    }
  }

  method CheckContent(h: Hashing, event: AuditEvent) returns (failures: seq<Finding>)
    ensures failures == ContentFindings(h, event)
  {
    failures := [];
    if !IsRecord(event.payload) {
      failures := failures + [About(ForbiddenPayloadField, Some(event))];
    } else if !ApprovedPayload(event.payload.members, 0) {
      failures := failures + [About(ForbiddenPayloadField, Some(event))];
    }
    var expectedHash := EventHash(h, event);
    if expectedHash.Err? || expectedHash.value != event.eventHash {
      failures := failures + [About(HashMismatch, Some(event))];
    }
  }

  method VerifyFinalizedArtifact(evidence: Evidence, event: AuditEvent) returns (failures: seq<Finding>)
    ensures failures == ArtifactFindings(evidence, event)
  {
    failures := [];
    var digest := FinalizedDigest(event.payload);
    if evidence.NoArtifact? {
      return [About(ArtifactMissing, Some(event))];
    }
    if digest.Some? && evidence.digest != digest.value {
      failures := failures + [About(ArtifactDigestMismatch, Some(event))];
    }
    if evidence.storedDigest == None {
      return failures + [About(ArtifactMissing, Some(event))];
    }
    if evidence.storedDigest.value != evidence.digest {
      failures := failures + [About(ArtifactDigestMismatch, Some(event))];
    }
  }

  /* ---- ok means valid ---- */

  /** The recorded artifact is there, its bytes hash to its digest, and a finalized digest in the payload is that digest. */
  predicate ArtifactMatches(evidence: Evidence, e: AuditEvent) {
    && evidence.Artifact?
    && evidence.storedDigest == Some(evidence.digest)
    && (FinalizedDigest(e.payload).Some? ==> FinalizedDigest(e.payload).value == evidence.digest)
  }

  /** A non-empty chain whose finalized events match the artifact and that contains what was anchored. */
  ghost predicate ValidChain(h: Hashing, events: seq<AuditEvent>, evidence: Evidence, latest: Option<Checkpoint>) {
    && events != []
    && Chained(h, events)
    && (forall i :: 0 <= i < |events| && events[i].kind == DOCUMENT_FINALIZED ==> ArtifactMatches(evidence, events[i]))
    && (latest.Some? ==> 0 <= latest.value.sequence < |events| && events[latest.value.sequence].eventHash == latest.value.eventHash)
  }

  /** A list numbered from 0 is already sorted. */
  lemma {:induction false} NumberedIsSorted(events: seq<AuditEvent>, from: int)
    requires forall i :: 0 <= i < |events| ==> events[i].sequence == from + i
    ensures SortBySequence(events) == events
  {
    if events != [] {
      NumberedIsSorted(events[1..], from + 1);
      assert events == [events[0]] + events[1..];
    }
  }

  ghost predicate NothingIn(h: Hashing, evidence: Evidence, sorted: seq<AuditEvent>, i: nat)
    requires i < |sorted|
  {
    LinkFindings(h, evidence, sorted, i) == []
  }

  lemma {:induction false} NothingGathered(found: nat -> seq<Finding>, n: nat)
    ensures Gather(found, n) == [] <==> forall i: nat :: i < n ==> found(i) == []
  {
    if n > 0 {
      NothingGathered(found, n - 1);
      assert |Gather(found, n)| == |Gather(found, n - 1)| + |found(n - 1)|;
    }
  }

  lemma NothingFound(h: Hashing, evidence: Evidence, sorted: seq<AuditEvent>)
    ensures LinksFindings(h, evidence, sorted, |sorted|) == [] <==> forall i :: 0 <= i < |sorted| ==> NothingIn(h, evidence, sorted, i)
  {
    var found := (i: nat) => if i < |sorted| then LinkFindings(h, evidence, sorted, i) else [];
    NothingGathered(found, |sorted|);
    forall i: nat | i < |sorted|
      ensures found(i) == [] <==> NothingIn(h, evidence, sorted, i)
    {
    }
  }

  lemma NothingFoundInLink(h: Hashing, evidence: Evidence, events: seq<AuditEvent>, i: nat)
    requires i < |events| && events[i].sequence == i
    ensures NothingIn(h, evidence, events, i)
            <==> LinkHolds(h, events, i) && (events[i].kind == DOCUMENT_FINALIZED ==> ArtifactMatches(evidence, events[i]))
  {
  }

  lemma {:induction false} FindNumbered(events: seq<AuditEvent>, from: int, sequence: int)
    requires forall i :: 0 <= i < |events| ==> events[i].sequence == from + i
    ensures FindSequence(events, sequence) == if from <= sequence < from + |events| then Some(events[sequence - from]) else None
  {
    if events != [] {
      FindNumbered(events[1..], from + 1, sequence);
    }
  }

  /** The verifier reports no failure exactly for valid chains: sorting hides no disorder and deduplication no failure. */
  lemma OkExactlyWhenValid(h: Hashing, events: seq<AuditEvent>, evidence: Evidence, enabled: bool, organizationId: Text, documentId: Text,
                           checkpoints: seq<Checkpoint>)
    ensures ReportOf(h, events, evidence, enabled, organizationId, documentId, checkpoints).ok
            <==> ValidChain(h, events, evidence, if enabled then LatestOf(checkpoints, organizationId, documentId) else None)
  {
    if events != [] {
      var latest := if enabled then LatestOf(checkpoints, organizationId, documentId) else None;
      DedupeLosesNoKind(Findings(h, events, evidence, latest));
      if Numbered(events) {
        FindingsOfNumbered(h, events, evidence, latest);
      } else {
        var i :| 0 <= i < |events| && events[i].sequence != i;
        assert !LinkHolds(h, events, i);
      }
    }
  }

  lemma FindingsOfNumbered(h: Hashing, events: seq<AuditEvent>, evidence: Evidence, latest: Option<Checkpoint>)
    requires events != [] && Numbered(events)
    ensures Findings(h, events, evidence, latest) == [] <==> ValidChain(h, events, evidence, latest)
  {
    NumberedIsSorted(events, 0);
    FindingsInParts(h, events, events, evidence, latest);
    LinksOfNumbered(h, events, evidence);
    CheckpointOfNumbered(events, latest);
  }

  lemma FindingsInParts(h: Hashing, events: seq<AuditEvent>, sorted: seq<AuditEvent>, evidence: Evidence, latest: Option<Checkpoint>)
    requires events != []
    ensures FindingsOver(h, events, sorted, evidence, latest) == []
            <==> SequenceFindings(events) == [] && LinksFindings(h, evidence, sorted, |sorted|) == [] && CheckpointFindings(sorted, latest) == []
  {
    NoneInAll(SequenceFindings(events), LinksFindings(h, evidence, sorted, |sorted|), CheckpointFindings(sorted, latest));
  }

  lemma CheckpointOfNumbered(events: seq<AuditEvent>, latest: Option<Checkpoint>)
    requires Numbered(events)
    ensures CheckpointFindings(events, latest) == []
            <==> (latest.Some? ==> 0 <= latest.value.sequence < |events| && events[latest.value.sequence].eventHash == latest.value.eventHash)
  {
    if latest.Some? {
      FindNumbered(events, 0, latest.value.sequence);
    }
  }

  lemma NoneInAll(a: seq<Finding>, b: seq<Finding>, c: seq<Finding>)
    ensures a + b + c == [] <==> a == [] && b == [] && c == []
  {
    assert |a + b + c| == |a| + |b| + |c|;
  }

  lemma LinksOfNumbered(h: Hashing, events: seq<AuditEvent>, evidence: Evidence)
    requires Numbered(events)
    ensures LinksFindings(h, evidence, events, |events|) == []
            <==> Chained(h, events) && forall i :: 0 <= i < |events| && events[i].kind == DOCUMENT_FINALIZED ==> ArtifactMatches(evidence, events[i])
  {
    NothingFound(h, evidence, events);
    forall i | 0 <= i < |events|
      ensures NothingIn(h, evidence, events, i)
              <==> LinkHolds(h, events, i) && (events[i].kind == DOCUMENT_FINALIZED ==> ArtifactMatches(evidence, events[i]))
    {
      NothingFoundInLink(h, evidence, events, i);
    }
  }
}
