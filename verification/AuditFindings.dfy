/** What a verification reports, said about the list as it was read: which findings there are and which
    there are not, and what it takes for the head of the chain. */
module AuditFindings {
  import opened Results
  import opened Texts
  import opened CanonicalJson
  import opened AuditPayload
  import opened AuditChain
  import opened Checkpoints
  import opened AuditVerifier

  /* ---- sorting ---- */

  ghost predicate Ascending(events: seq<AuditEvent>) {
    forall i, j :: 0 <= i < j < |events| ==> events[i].sequence <= events[j].sequence
  }

  /** The events that carry a number, in the order of the list. */
  function CarryingNumber(events: seq<AuditEvent>, n: int): seq<AuditEvent> {
    if events == [] then []
    else (if events[0].sequence == n then [events[0]] else []) + CarryingNumber(events[1..], n)
  }

  lemma {:induction false} InsertedOnce(e: AuditEvent, sorted: seq<AuditEvent>)
    ensures multiset(InsertEvent(e, sorted)) == multiset([e]) + multiset(sorted)
  {
    if sorted != [] && e.sequence > sorted[0].sequence {
      InsertedOnce(e, sorted[1..]);
      assert sorted == [sorted[0]] + sorted[1..];
    }
  }

  lemma ConsAscends(first: AuditEvent, rest: seq<AuditEvent>)
    requires Ascending(rest) && (rest != [] ==> first.sequence <= rest[0].sequence)
    ensures Ascending([first] + rest)
  {
  }

  lemma {:induction false} InsertedInOrder(e: AuditEvent, sorted: seq<AuditEvent>)
    requires Ascending(sorted)
    ensures Ascending(InsertEvent(e, sorted))
    ensures InsertEvent(e, sorted)[0] == e || (sorted != [] && InsertEvent(e, sorted)[0] == sorted[0])
  {
    if sorted != [] && e.sequence > sorted[0].sequence {
      InsertedInOrder(e, sorted[1..]);
      ConsAscends(sorted[0], InsertEvent(e, sorted[1..]));
    } else {
      ConsAscends(e, sorted);
    }
  }

  lemma ConsCarries(first: AuditEvent, rest: seq<AuditEvent>, n: int)
    ensures CarryingNumber([first] + rest, n) == (if first.sequence == n then [first] else []) + CarryingNumber(rest, n)
  {
    assert ([first] + rest)[1..] == rest;
  }

  lemma {:induction false} InsertedIsStable(e: AuditEvent, sorted: seq<AuditEvent>, n: int)
    requires Ascending(sorted)
    ensures CarryingNumber(InsertEvent(e, sorted), n) == (if e.sequence == n then [e] else []) + CarryingNumber(sorted, n)
  {
    if sorted != [] && e.sequence > sorted[0].sequence {
      InsertedIsStable(e, sorted[1..], n);
      ConsCarries(sorted[0], InsertEvent(e, sorted[1..]), n);
    } else {
      ConsCarries(e, sorted, n);
    }
  }

  /** The sorted list is ascending, has the same events, and keeps the order of those with the same number. */
  lemma {:induction false} SortingSorts(events: seq<AuditEvent>)
    ensures Ascending(SortBySequence(events))
    ensures multiset(SortBySequence(events)) == multiset(events)
    ensures forall n :: CarryingNumber(SortBySequence(events), n) == CarryingNumber(events, n)
  {
    if events != [] {
      var rest := events[1..];
      SortingSorts(rest);
      InsertedInOrder(events[0], SortBySequence(rest));
      InsertedOnce(events[0], SortBySequence(rest));
      assert events == [events[0]] + rest;
      forall n
        ensures CarryingNumber(SortBySequence(events), n) == CarryingNumber(events, n)
      {
        InsertedIsStable(events[0], SortBySequence(rest), n);
      }
    }
  }

  /** The head of a report is the event with the highest number, the last such one in the list. */
  lemma HeadIsHighest(h: Hashing, events: seq<AuditEvent>, evidence: Evidence, enabled: bool, organizationId: Text, documentId: Text,
                      checkpoints: seq<Checkpoint>)
    requires events != []
    ensures var report := ReportOf(h, events, evidence, enabled, organizationId, documentId, checkpoints);
            exists e :: e in events && report.headSequence == Some(e.sequence) && report.headEventHash == Some(e.eventHash)
                        && (forall x :: x in events ==> x.sequence <= e.sequence)
                        && CarryingNumber(events, e.sequence) != []
                        && e == CarryingNumber(events, e.sequence)[|CarryingNumber(events, e.sequence)| - 1]
  {
    SortedLast(events);
  }

  lemma SortedLast(events: seq<AuditEvent>)
    requires events != []
    ensures var e := SortBySequence(events)[|events| - 1];
            && e in events && (forall x :: x in events ==> x.sequence <= e.sequence)
            && CarryingNumber(events, e.sequence) != []
            && e == CarryingNumber(events, e.sequence)[|CarryingNumber(events, e.sequence)| - 1]
  {
    var sorted, n := SortBySequence(events), |events| - 1;
    SortingSorts(events);
    SameMembers(events, sorted);
    forall x | x in events
      ensures x.sequence <= sorted[n].sequence
    {
      var i :| 0 <= i < |sorted| && sorted[i] == x;
    }
    assert sorted == sorted[..n] + [sorted[n]];
    LastCarries(sorted[..n], sorted[n]);
    assert CarryingNumber(events, sorted[n].sequence) == CarryingNumber(sorted, sorted[n].sequence);
  }

  lemma SameMembers(a: seq<AuditEvent>, b: seq<AuditEvent>)
    requires multiset(a) == multiset(b)
    ensures forall x :: x in a <==> x in b
  {
    forall x
      ensures x in a <==> x in b
    {
      assert x in a <==> x in multiset(a);
      assert x in b <==> x in multiset(b);
    }
  }

  lemma {:induction false} LastCarries(before: seq<AuditEvent>, last: AuditEvent)
    ensures CarryingNumber(before + [last], last.sequence) == CarryingNumber(before, last.sequence) + [last]
  {
    if before == [] {
      assert before + [last] == [last];
      assert [last][1..] == [];
    } else {
      LastCarries(before[1..], last);
      assert (before + [last])[1..] == before[1..] + [last];
    }
  }

  /* ---- a chain out of order ---- */

  lemma {:induction false} OnlyOneAscends(a: seq<AuditEvent>, b: seq<AuditEvent>, from: int)
    requires Ascending(a) && multiset(a) == multiset(b) && forall i :: 0 <= i < |b| ==> b[i].sequence == from + i
    ensures a == b
  {
    assert |a| == |multiset(a)| == |multiset(b)| == |b|;
    if a != [] {
      SameFirst(a, b, from);
      assert a == [a[0]] + a[1..] && b == [b[0]] + b[1..];
      assert multiset(a[1..]) == multiset(a) - multiset([a[0]]);
      assert multiset(b[1..]) == multiset(b) - multiset([b[0]]);
      OnlyOneAscends(a[1..], b[1..], from + 1);
    }
  }

  lemma SameFirst(a: seq<AuditEvent>, b: seq<AuditEvent>, from: int)
    requires Ascending(a) && multiset(a) == multiset(b) && forall i :: 0 <= i < |b| ==> b[i].sequence == from + i
    requires a != [] && b != []
    ensures a[0] == b[0]
  {
    assert a[0] in multiset(b) && b[0] in multiset(a);
    var i :| 0 <= i < |b| && b[i] == a[0];
    var j :| 0 <= j < |a| && a[j] == b[0];
  }

  lemma {:induction false} UpTheLineAscends(events: seq<AuditEvent>)
    requires !Descends(events)
    ensures Ascending(events)
  {
    if events != [] {
      var n := |events| - 1;
      var before := events[..n];
      assert !Descends(before) by {
        forall i | 0 < i < |before|
          ensures before[i].sequence >= before[i - 1].sequence
        {
          assert events[i].sequence >= events[i - 1].sequence;
        }
      }
      UpTheLineAscends(before);
      if n > 0 {
        assert events[n].sequence >= events[n - 1].sequence && before[n - 1] == events[n - 1];
      }
      forall i, j | 0 <= i < j < |events|
        ensures events[i].sequence <= events[j].sequence
      {
        if j < n {
          assert before[i] == events[i] && before[j] == events[j];
        } else if i < n - 1 {
          assert before[i].sequence <= before[n - 1].sequence;
        }
      }
    }
  }

  /** The same events, each as often, in another order. */
  ghost predicate IsReordering(events: seq<AuditEvent>, chain: seq<AuditEvent>) {
    multiset(events) == multiset(chain) && events != chain
  }

  /** A sound chain listed in any other order gives exactly one finding, that it was reordered, naming the
      event listed first; its head is still the chain's. */
  lemma ReorderedChain(h: Hashing, chain: seq<AuditEvent>, events: seq<AuditEvent>, evidence: Evidence, enabled: bool,
                       organizationId: Text, documentId: Text, checkpoints: seq<Checkpoint>)
    requires ValidChain(h, chain, evidence, if enabled then LatestOf(checkpoints, organizationId, documentId) else None)
    requires IsReordering(events, chain)
    ensures ReportOf(h, events, evidence, enabled, organizationId, documentId, checkpoints)
            == Report(false, |chain|, Some(chain[|chain| - 1].eventHash), Some(|chain| - 1),
                      [Finding(SequenceReorder, Some(events[0].sequence), Some(events[0].id))],
                      if enabled then [] else [CheckpointAnchoringDisabled])
  {
    ReorderedFindings(h, chain, events, evidence, if enabled then LatestOf(checkpoints, organizationId, documentId) else None);
    OneFindingReported(h, events, evidence, enabled, organizationId, documentId, checkpoints, About(SequenceReorder, Some(events[0])), chain[|chain| - 1]);
  }

  lemma ReorderedFindings(h: Hashing, chain: seq<AuditEvent>, events: seq<AuditEvent>, evidence: Evidence, latest: Option<Checkpoint>)
    requires ValidChain(h, chain, evidence, latest) && IsReordering(events, chain)
    ensures events != [] && |events| == |chain| && SameLast(SortBySequence(events), chain)
    ensures chain[|chain| - 1].sequence == |chain| - 1
    ensures Findings(h, events, evidence, latest) == [About(SequenceReorder, Some(events[0]))]
  {
    ChainIsNumbered(h, chain);
    SortsToChain(chain, events);
    OnlyReordered(h, chain, events, evidence, latest);
  }

  ghost predicate SameLast(a: seq<AuditEvent>, b: seq<AuditEvent>) {
    a != [] && b != [] && a[|a| - 1] == b[|b| - 1]
  }

  lemma OneFindingReported(h: Hashing, events: seq<AuditEvent>, evidence: Evidence, enabled: bool, organizationId: Text, documentId: Text,
                           checkpoints: seq<Checkpoint>, f: Finding, head: AuditEvent)
    requires events != [] && SameLast(SortBySequence(events), [head])
    requires Findings(h, events, evidence, if enabled then LatestOf(checkpoints, organizationId, documentId) else None) == [f]
    ensures ReportOf(h, events, evidence, enabled, organizationId, documentId, checkpoints)
            == Report(false, |events|, Some(head.eventHash), Some(head.sequence), [f], if enabled then [] else [CheckpointAnchoringDisabled])
  {
    OneFinding(f);
  }

  lemma SortsToChain(chain: seq<AuditEvent>, events: seq<AuditEvent>)
    requires Numbered(chain) && IsReordering(events, chain)
    ensures SortBySequence(events) == chain && Descends(events) && events != [] && |events| == |chain|
    ensures SameLast(SortBySequence(events), chain)
  {
    SortingSorts(events);
    OnlyOneAscends(SortBySequence(events), chain, 0);
    if !Descends(events) {
      UpTheLineAscends(events);
      OnlyOneAscends(events, chain, 0);
    }
    assert |events| == |multiset(events)| == |chain|;
  }

  lemma ChainIsNumbered(h: Hashing, chain: seq<AuditEvent>)
    requires Chained(h, chain)
    ensures Numbered(chain)
  {
    forall i | 0 <= i < |chain|
      ensures chain[i].sequence == i
    {
      assert LinkHolds(h, chain, i);
    }
  }

  lemma OnlyReordered(h: Hashing, chain: seq<AuditEvent>, events: seq<AuditEvent>, evidence: Evidence, latest: Option<Checkpoint>)
    requires ValidChain(h, chain, evidence, latest) && Numbered(chain)
    requires events != [] && SortBySequence(events) == chain && Descends(events)
    ensures Findings(h, events, evidence, latest) == [About(SequenceReorder, Some(events[0]))]
  {
    LinksOfNumbered(h, chain, evidence);
    CheckpointOfNumbered(chain, latest);
    NumberedNeverDescends(events);
  }

  lemma NumberedNeverDescends(events: seq<AuditEvent>)
    ensures Numbered(events) ==> !Descends(events)
  {
  }

  lemma OneFinding(f: Finding)
    ensures Dedupe([f]) == [f]
  {
    assert [f][..0] == [];
  }

  /* ---- exactly which findings ---- */

  function Named(code: FindingCode, e: AuditEvent): Finding {
    Finding(code, Some(e.sequence), Some(e.id))
  }

  /** Whether a finding of this code about the event is due, given the events in the order of their numbers. */
  ghost predicate IsDue(h: Hashing, sorted: seq<AuditEvent>, evidence: Evidence, i: nat, code: FindingCode)
    requires i < |sorted|
  {
    var e := sorted[i];
    match code
    case UnsupportedVersion => e.chainVersion != 1
    case GenesisPreviousHashMismatch => i == 0 && e.previousEventHash != Repeat(48, 64)
    case PreviousHashMismatch => i > 0 && e.previousEventHash != sorted[i - 1].eventHash
    case ForbiddenPayloadField => !(e.payload.Obj? && ApprovedPayload(e.payload.members, 0))
    case HashMismatch => EventHash(h, e) != Ok(e.eventHash)
    case ArtifactMissing => e.kind == Ascii("document_finalized") && (evidence.NoArtifact? || evidence.storedDigest == None)
    case ArtifactDigestMismatch =>
      && e.kind == Ascii("document_finalized") && evidence.Artifact?
      && ((evidence.storedDigest.Some? && evidence.storedDigest.value != evidence.digest)
          || (FinalizedDigest(e.payload).Some? && FinalizedDigest(e.payload).value != evidence.digest))
    case _ => false
  }

  /** Whether the numbers or the checkpoint give rise to the finding. */
  ghost predicate IsDueOverall(events: seq<AuditEvent>, latest: Option<Checkpoint>, f: Finding) {
    match f.code
    case SequenceReorder =>
      events != [] && f == Named(SequenceReorder, events[0]) && exists i :: 0 < i < |events| && events[i].sequence < events[i - 1].sequence
    case SequenceGap =>
      && (forall i :: 0 < i < |events| ==> events[i - 1].sequence <= events[i].sequence)
      && exists i :: 0 <= i < |events| && f == Named(SequenceGap, events[i]) && events[i].sequence != i
                     && forall j :: 0 <= j < i ==> events[j].sequence == j
    case CheckpointMismatch =>
      && latest.Some?
      && var there := CarryingNumber(events, latest.value.sequence);
         if there == [] then f == Finding(CheckpointMismatch, None, None)
         else f == Named(CheckpointMismatch, there[0]) && there[0].eventHash != latest.value.eventHash
    case _ => false
  }

  /** Whether anything gives rise to the finding: the list as it stands, the checkpoint, or one of the events. */
  ghost predicate IsCalledFor(h: Hashing, events: seq<AuditEvent>, evidence: Evidence, latest: Option<Checkpoint>, f: Finding) {
    var sorted := SortBySequence(events);
    IsDueOverall(events, latest, f)
    || exists i :: 0 <= i < |sorted| && f == Named(f.code, sorted[i]) && IsDue(h, sorted, evidence, i, f.code)
  }

  /** The findings of a verification are exactly the ones that are called for, no more and no less. */
  lemma FindingsAreExactly(h: Hashing, events: seq<AuditEvent>, evidence: Evidence, latest: Option<Checkpoint>, f: Finding)
    requires events != []
    ensures f in Findings(h, events, evidence, latest) <==> IsCalledFor(h, events, evidence, latest, f)
  {
    var sorted := SortBySequence(events);
    OrderFindings(events, f);
    AnchorFindings(events, latest, f);
    EventFindings(h, sorted, evidence, f);
  }

  lemma OrderFindings(events: seq<AuditEvent>, f: Finding)
    requires events != []
    ensures f in SequenceFindings(events) <==> (f.code == SequenceReorder || f.code == SequenceGap) && IsDueOverall(events, None, f)
  {
    FirstWrong(events, 0);
    if !Descends(events) && Numbered(events) {
    } else if Descends(events) {
      NumberedNeverDescends(events);
    }
  }

  lemma {:induction false} FirstWrong(events: seq<AuditEvent>, from: nat)
    requires from <= |events|
    ensures match FirstMisnumbered(events, from)
            case None => forall i :: from <= i < |events| ==> events[i].sequence == i
            case Some(e) => exists i :: from <= i < |events| && e == events[i] && events[i].sequence != i
                                        && forall j :: from <= j < i ==> events[j].sequence == j
    decreases |events| - from
  {
    if from < |events| && events[from].sequence == from {
      FirstWrong(events, from + 1);
    }
  }

  lemma AnchorFindings(events: seq<AuditEvent>, latest: Option<Checkpoint>, f: Finding)
    ensures f in CheckpointFindings(SortBySequence(events), latest) <==> f.code == CheckpointMismatch && IsDueOverall(events, latest, f)
  {
    if latest.Some? {
      SortingSorts(events);
      FirstCarrying(SortBySequence(events), latest.value.sequence);
      assert CarryingNumber(SortBySequence(events), latest.value.sequence) == CarryingNumber(events, latest.value.sequence);
    }
  }

  lemma {:induction false} FirstCarrying(events: seq<AuditEvent>, n: int)
    ensures FindSequence(events, n) == if CarryingNumber(events, n) == [] then None else Some(CarryingNumber(events, n)[0])
  {
    if events != [] {
      FirstCarrying(events[1..], n);
    }
  }

  lemma {:induction false} GatheredFrom(found: nat -> seq<Finding>, n: nat, f: Finding)
    ensures f in Gather(found, n) <==> exists i: nat :: i < n && f in found(i)
  {
    if n > 0 {
      GatheredFrom(found, n - 1, f);
    }
  }

  lemma EventFindings(h: Hashing, sorted: seq<AuditEvent>, evidence: Evidence, f: Finding)
    ensures f in LinksFindings(h, evidence, sorted, |sorted|)
            <==> exists i :: 0 <= i < |sorted| && f == Named(f.code, sorted[i]) && IsDue(h, sorted, evidence, i, f.code)
  {
    var found := (i: nat) => if i < |sorted| then LinkFindings(h, evidence, sorted, i) else [];
    GatheredFrom(found, |sorted|, f);
    forall i: nat | i < |sorted|
      ensures f in found(i) <==> f == Named(f.code, sorted[i]) && IsDue(h, sorted, evidence, i, f.code)
    {
      OneEventsFindings(h, sorted, evidence, i, f);
    }
  }

  lemma OneEventsFindings(h: Hashing, sorted: seq<AuditEvent>, evidence: Evidence, i: nat, f: Finding)
    requires i < |sorted|
    ensures f in LinkFindings(h, evidence, sorted, i) <==> f == Named(f.code, sorted[i]) && IsDue(h, sorted, evidence, i, f.code)
  {
    PlaceFindingsAre(sorted, h, evidence, i, f);
    ContentFindingsAre(sorted, h, evidence, i, f);
    ArtifactFindingsAre(sorted, h, evidence, i, f);
  }

  lemma PlaceFindingsAre(sorted: seq<AuditEvent>, h: Hashing, evidence: Evidence, i: nat, f: Finding)
    requires i < |sorted|
    ensures f in PlaceFindings(sorted, i)
            <==> (f.code == UnsupportedVersion || f.code == GenesisPreviousHashMismatch || f.code == PreviousHashMismatch)
                 && f == Named(f.code, sorted[i]) && IsDue(h, sorted, evidence, i, f.code)
  {
  }

  lemma ContentFindingsAre(sorted: seq<AuditEvent>, h: Hashing, evidence: Evidence, i: nat, f: Finding)
    requires i < |sorted|
    ensures f in ContentFindings(h, sorted[i])
            <==> (f.code == ForbiddenPayloadField || f.code == HashMismatch)
                 && f == Named(f.code, sorted[i]) && IsDue(h, sorted, evidence, i, f.code)
  {
  }

  lemma ArtifactFindingsAre(sorted: seq<AuditEvent>, h: Hashing, evidence: Evidence, i: nat, f: Finding)
    requires i < |sorted|
    ensures sorted[i].kind == DOCUMENT_FINALIZED && f in ArtifactFindings(evidence, sorted[i])
            <==> (f.code == ArtifactMissing || f.code == ArtifactDigestMismatch)
                 && f == Named(f.code, sorted[i]) && IsDue(h, sorted, evidence, i, f.code)
  {
  }

  /** The report has exactly the findings that are called for, each once. */
  lemma ReportIsExact(h: Hashing, events: seq<AuditEvent>, evidence: Evidence, enabled: bool, organizationId: Text, documentId: Text,
                      checkpoints: seq<Checkpoint>)
    requires events != []
    ensures var reported := ReportOf(h, events, evidence, enabled, organizationId, documentId, checkpoints).findings;
            var latest := if enabled then LatestOf(checkpoints, organizationId, documentId) else None;
            && (forall f :: f in reported <==> IsCalledFor(h, events, evidence, latest, f))
            && (forall i, j :: 0 <= i < j < |reported| ==> reported[i] != reported[j])
  {
    var latest := if enabled then LatestOf(checkpoints, organizationId, documentId) else None;
    forall f
      ensures f in Findings(h, events, evidence, latest) <==> IsCalledFor(h, events, evidence, latest, f)
    {
      FindingsAreExactly(h, events, evidence, latest, f);
    }
    FindingsAreWhole(h, events, evidence, latest);
    DedupeKeepsAll(Findings(h, events, evidence, latest));
  }

  /** A finding names an event by its number and its id, or names none. */
  ghost predicate IsWhole(f: Finding) {
    f.sequence == None <==> f.eventId == None
  }

  lemma FindingsAreWhole(h: Hashing, events: seq<AuditEvent>, evidence: Evidence, latest: Option<Checkpoint>)
    requires events != []
    ensures forall f :: f in Findings(h, events, evidence, latest) ==> IsWhole(f)
  {
    forall f | f in Findings(h, events, evidence, latest)
      ensures IsWhole(f)
    {
      FindingsAreExactly(h, events, evidence, latest, f);
    }
  }

  /** Deduplication keeps each whole finding once. */
  lemma DedupeKeepsAll(due: seq<Finding>)
    requires forall f :: f in due ==> IsWhole(f)
    ensures forall f :: f in Dedupe(due) <==> f in due
    ensures forall i, j :: 0 <= i < j < |Dedupe(due)| ==> Dedupe(due)[i] != Dedupe(due)[j]
  {
    DedupeLosesNoKind(due);
    DedupeMakesNothingUp(due);
    forall f | f in due
      ensures f in Dedupe(due)
    {
      assert FindingKey(f) in KeysOf(due);
      var g :| g in Dedupe(due) && FindingKey(g) == FindingKey(f);
      assert IsWhole(f) && IsWhole(g);
    }
    forall i, j | 0 <= i < j < |Dedupe(due)|
      ensures Dedupe(due)[i] != Dedupe(due)[j]
    {
      DedupeKeepsOne(due, i, j);
    }
  }

  /** The rest of a report: ok is having no finding; the only warnings are that nothing is anchored, or that
      another hash is anchored already where the head of an ok report belongs. */
  lemma ReportRest(h: Hashing, events: seq<AuditEvent>, evidence: Evidence, enabled: bool, organizationId: Text, documentId: Text,
                   checkpoints: seq<Checkpoint>)
    requires events != [] && OnePerPosition(checkpoints)
    ensures var report := ReportOf(h, events, evidence, enabled, organizationId, documentId, checkpoints);
            && (report.ok <==> report.findings == []) && report.eventCount == |events|
            && report.headSequence.Some? && report.headEventHash.Some?
            && var head := Checkpoint(organizationId, documentId, report.headSequence.value, report.headEventHash.value);
               report.warnings == if !enabled then [CheckpointAnchoringDisabled]
                                  else if report.ok && exists i :: 0 <= i < |checkpoints| && ContradictsAt(checkpoints[i], head)
                                  then [CheckpointStoreUnavailable] else []
  {
    PutExactly(checkpoints, Anchor(organizationId, documentId, SortBySequence(events)[|events| - 1]));
  }

  /** An empty list is one finding and nothing else. */
  lemma EmptyReport(h: Hashing, evidence: Evidence, enabled: bool, organizationId: Text, documentId: Text, checkpoints: seq<Checkpoint>)
    ensures ReportOf(h, [], evidence, enabled, organizationId, documentId, checkpoints)
            == Report(false, 0, None, None, [Finding(EmptyChain, None, None)], [])
  {
  }

  lemma {:induction false} DedupeMakesNothingUp(findings: seq<Finding>)
    ensures forall f :: f in Dedupe(findings) ==> f in findings
  {
    if findings != [] {
      DedupeMakesNothingUp(findings[..|findings| - 1]);
    }
  }

  /** The digest a payload claims is the string at its key, if the key is there once. */
  lemma {:induction false} DigestIsTheMember(members: seq<Member>, i: nat)
    requires i < |members| && members[i].key == Ascii("finalizedSha256")
    requires forall j :: 0 <= j < |members| && j != i ==> members[j].key != members[i].key
    ensures FinalizedDigest(Obj(members)) == if members[i].value.Str? then Some(members[i].value.text) else None
  {
    StringAt(members, i);
  }

  lemma {:induction false} StringAt(members: seq<Member>, i: nat)
    requires i < |members| && forall j :: 0 <= j < |members| && j != i ==> members[j].key != members[i].key
    ensures StringMember(members, members[i].key) == if members[i].value.Str? then Some(members[i].value.text) else None
  {
    if i > 0 {
      StringAt(members[1..], i - 1);
    }
  }
}
