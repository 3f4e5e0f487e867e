/** The appending writer: it reads the latest event of one document and links the next one to it. */
module AuditWriter {
  import opened Results
  import opened Texts
  import opened CanonicalJson
  import opened AuditPayload
  import opened AuditChain

  /** What a use case hands to the writer. */
  datatype Draft = Draft(
    id: Text, organizationId: Text, documentId: Text, kind: Text, actorType: Text, actorId: Text, occurredAt: int, payload: seq<Member>)

  predicate IsEventOf(e: AuditEvent, organizationId: Text, documentId: Text) {
    e.organizationId == organizationId && e.documentId == documentId
  }

  /** The events of one document, in the order of the log. */
  function EventsOf(events: seq<AuditEvent>, organizationId: Text, documentId: Text): seq<AuditEvent> {
    if events == [] then []
    else
      var last := events[|events| - 1];
      EventsOf(events[..|events| - 1], organizationId, documentId) + if IsEventOf(last, organizationId, documentId) then [last] else []
  }

  /** The first event with the highest sequence. */
  function LatestIn(events: seq<AuditEvent>): Option<AuditEvent> {
    if events == [] then None
    else
      var before, last := LatestIn(events[..|events| - 1]), events[|events| - 1];
      if before == None || last.sequence > before.value.sequence then Some(last) else before
  }

  /** The next event, but for its hash. */
  function Unhashed(latest: Option<AuditEvent>, draft: Draft): AuditEvent {
    AuditEvent(draft.id, draft.organizationId, draft.documentId,
               if latest.Some? then latest.value.sequence + 1 else 0,
               draft.kind, draft.actorType, draft.actorId, draft.occurredAt, Obj(draft.payload),
               if latest.Some? then latest.value.eventHash else GENESIS,
               [], SCHEMA_VERSION)
  }

  function NextEvent(h: Hashing, latest: Option<AuditEvent>, draft: Draft): Result<AuditEvent> {
    if !ApprovedPayload(draft.payload, 0) then Err(ForbiddenPayload)
    else
      var hash :- EventHash(h, Unhashed(latest, draft));
      Ok(Unhashed(latest, draft).(eventHash := hash))
  }

  /** What appending a draft stores. */
  function AppendSpec(h: Hashing, events: seq<AuditEvent>, draft: Draft): Result<AuditEvent> {
    NextEvent(h, LatestIn(EventsOf(events, draft.organizationId, draft.documentId)), draft)
  }

  function After(h: Hashing, events: seq<AuditEvent>, draft: Draft): seq<AuditEvent> {
    var r := AppendSpec(h, events, draft);
    if r.Ok? then events + [r.value] else events
  }

  class AuditLog {
    var events: seq<AuditEvent>

    constructor (seed: seq<AuditEvent>)
      ensures events == seed
    {
      events := seed;
    }

    method ListByDocument(organizationId: Text, documentId: Text) returns (matching: seq<AuditEvent>)
      ensures matching == EventsOf(events, organizationId, documentId)
    {
      matching := [];
      for i := 0 to |events|
        invariant matching == EventsOf(events[..i], organizationId, documentId)
      {
        assert events[..i + 1][..i] == events[..i];
        if IsEventOf(events[i], organizationId, documentId) {
          matching := matching + [events[i]];
        }
      }
      assert events[..|events|] == events;
    }

    method FindLatest(organizationId: Text, documentId: Text) returns (latest: Option<AuditEvent>)
      ensures latest == LatestIn(EventsOf(events, organizationId, documentId))
    {
      var matching := ListByDocument(organizationId, documentId);
      latest := None;
      for i := 0 to |matching|
        invariant latest == LatestIn(matching[..i])
      {
        assert matching[..i + 1][..i] == matching[..i];
        if latest == None || matching[i].sequence > latest.value.sequence {
          latest := Some(matching[i]);
        }
      }
      assert matching[..|matching|] == matching;
    }

    /** A refused payload, or one that cannot be hashed, stores nothing. */
    method Append(h: Hashing, draft: Draft) returns (r: Result<AuditEvent>)
      modifies this
      ensures r == AppendSpec(h, old(events), draft)
      ensures events == After(h, old(events), draft)
    {
      if !ApprovedPayload(draft.payload, 0) {
        return Err(ForbiddenPayload);
      }
      var latest := FindLatest(draft.organizationId, draft.documentId);
      var sequence := if latest.Some? then latest.value.sequence + 1 else 0;
      var previousEventHash := if latest.Some? then latest.value.eventHash else GENESIS;
      var stored := AuditEvent(draft.id, draft.organizationId, draft.documentId, sequence, draft.kind, draft.actorType, draft.actorId,
                               draft.occurredAt, Obj(draft.payload), previousEventHash, [], SCHEMA_VERSION);
      var hash := EventHash(h, stored);
      if hash.Err? {
        return Err(hash.failure);
      }
      stored := stored.(eventHash := hash.value);
      events := events + [stored];
      return Ok(stored);
    }
  }

  /* ---- what the writer looks at ---- */

  /** The document's events are those of its organization and id, in the order of the log. */
  lemma {:induction false} EventsOfSplit(before: seq<AuditEvent>, after: seq<AuditEvent>, organizationId: Text, documentId: Text)
    ensures EventsOf(before + after, organizationId, documentId)
            == EventsOf(before, organizationId, documentId) + EventsOf(after, organizationId, documentId)
  {
    if after == [] {
      assert before + after == before;
    } else {
      var all, n := before + after, |after| - 1;
      assert all[..|all| - 1] == before + after[..n] && all[|all| - 1] == after[n];
      EventsOfSplit(before, after[..n], organizationId, documentId);
    }
  }

  lemma EventsOfOne(e: AuditEvent, organizationId: Text, documentId: Text)
    ensures EventsOf([e], organizationId, documentId) == if e.organizationId == organizationId && e.documentId == documentId then [e] else []
  {
    assert [e][..0] == [];
  }

  /** The latest event is the first of those with the highest number. */
  lemma {:induction false} LatestIsFirstHighest(events: seq<AuditEvent>)
    ensures LatestIn(events) == None <==> events == []
    ensures events != [] ==>
              exists i :: 0 <= i < |events| && LatestIn(events) == Some(events[i])
                          && (forall j :: 0 <= j < i ==> events[j].sequence < events[i].sequence)
                          && (forall j :: i < j < |events| ==> events[j].sequence <= events[i].sequence)
  {
    if events != [] {
      LatestIsFirstHighest(events[..|events| - 1]);
    }
  }

  /* ---- what the writer keeps ---- */

  ghost predicate EveryChainHolds(h: Hashing, events: seq<AuditEvent>) {
    forall organizationId, documentId :: Chained(h, EventsOf(events, organizationId, documentId))
  }

  /** In a chain the latest event is the last one. */
  lemma {:induction false} LatestIsLast(h: Hashing, chain: seq<AuditEvent>)
    requires Chained(h, chain)
    ensures LatestIn(chain) == if chain == [] then None else Some(chain[|chain| - 1])
  {
    if chain != [] {
      var before := chain[..|chain| - 1];
      forall i | 0 <= i < |before|
        ensures LinkHolds(h, before, i)
      {
        assert LinkHolds(h, chain, i);
      }
      LatestIsLast(h, before);
      assert LinkHolds(h, chain, |chain| - 1);
      if before != [] {
        assert LinkHolds(h, chain, |before| - 1);
      }
    }
  }

  lemma NextEventLinks(h: Hashing, chain: seq<AuditEvent>, draft: Draft)
    requires Chained(h, chain) && NextEvent(h, LatestIn(chain), draft).Ok?
    ensures Chained(h, chain + [NextEvent(h, LatestIn(chain), draft).value])
  {
    var next := NextEvent(h, LatestIn(chain), draft).value;
    var longer := chain + [next];
    LatestIsLast(h, chain);
    HashIgnoresHash(h, next, next.(eventHash := []));
    if chain != [] {
      assert LinkHolds(h, chain, |chain| - 1);
    }
    forall i | 0 <= i < |longer|
      ensures LinkHolds(h, longer, i)
    {
      if i < |chain| {
        assert LinkHolds(h, chain, i);
      }
    }
  }

  /** The stored hash is not part of what is hashed, nor is the id. */
  lemma HashIgnoresHash(h: Hashing, a: AuditEvent, b: AuditEvent)
    requires b == a.(id := b.id, eventHash := b.eventHash)
    ensures EventHash(h, a) == EventHash(h, b)
  {
  }

  lemma EventsOfAppended(events: seq<AuditEvent>, e: AuditEvent, organizationId: Text, documentId: Text)
    ensures EventsOf(events + [e], organizationId, documentId)
            == EventsOf(events, organizationId, documentId) + if IsEventOf(e, organizationId, documentId) then [e] else []
  {
    assert (events + [e])[..|events|] == events;
  }

  /** An append extends the chain of its own document by one link and touches no other chain. */
  lemma AppendKeepsChains(h: Hashing, events: seq<AuditEvent>, draft: Draft)
    requires EveryChainHolds(h, events)
    ensures EveryChainHolds(h, After(h, events, draft))
  {
    var r := AppendSpec(h, events, draft);
    if r.Ok? {
      forall organizationId, documentId
        ensures Chained(h, EventsOf(After(h, events, draft), organizationId, documentId))
      {
        EventsOfAppended(events, r.value, organizationId, documentId);
        assert Chained(h, EventsOf(events, organizationId, documentId));
        if IsEventOf(r.value, organizationId, documentId) {
          NextEventLinks(h, EventsOf(events, organizationId, documentId), draft);
        } else {
          assert EventsOf(events, organizationId, documentId) + [] == EventsOf(events, organizationId, documentId);
        }
      }
    }
  }

  /** The log after appending the drafts in the order they took the document locks. */
  function Written(h: Hashing, drafts: seq<Draft>): seq<AuditEvent> {
    if drafts == [] then [] else After(h, Written(h, drafts[..|drafts| - 1]), drafts[|drafts| - 1])
  }

  /** Any interleaving of appends to any number of documents leaves every document with a chain. */
  lemma {:induction false} WrittenLogsAreChains(h: Hashing, drafts: seq<Draft>)
    ensures EveryChainHolds(h, Written(h, drafts))
  {
    if drafts != [] {
      WrittenLogsAreChains(h, drafts[..|drafts| - 1]);
      AppendKeepsChains(h, Written(h, drafts[..|drafts| - 1]), drafts[|drafts| - 1]);
    }
  }

  /** What an append stores, in a log in which every document has its chain: the draft as it is, numbered by
      how many events its document has, linked to the hash of the last of them or to sixty-four zeros, and
      hashed. Nothing else in the log changes. */
  lemma AppendedEvent(h: Hashing, events: seq<AuditEvent>, draft: Draft)
    requires EveryChainHolds(h, events) && AppendSpec(h, events, draft).Ok?
    ensures var chain, e := EventsOf(events, draft.organizationId, draft.documentId), AppendSpec(h, events, draft).value;
            && After(h, events, draft) == events + [e]
            && e == AuditEvent(draft.id, draft.organizationId, draft.documentId, |chain|, draft.kind, draft.actorType, draft.actorId,
                               draft.occurredAt, Obj(draft.payload),
                               if chain == [] then Repeat(48, 64) else chain[|chain| - 1].eventHash, e.eventHash, 1)
            && EventText(h, e).Ok? && e.eventHash == h.hash(EventText(h, e).value)
  {
    var chain := EventsOf(events, draft.organizationId, draft.documentId);
    assert Chained(h, chain);
    LatestIsLast(h, chain);
    if chain != [] {
      assert LinkHolds(h, chain, |chain| - 1);
    }
    TextIgnoresHash(h, AppendSpec(h, events, draft).value);
  }

  lemma TextIgnoresHash(h: Hashing, e: AuditEvent)
    ensures EventText(h, e) == EventText(h, e.(eventHash := []))
  {
  }

  /** An event with an approved payload can be hashed. */
  lemma ApprovedCanBeHashed(h: Hashing, e: AuditEvent)
    requires e.payload.Obj? && WellFormed(e.payload) && ApprovedPayload(e.payload.members, 0) && e.chainVersion == SCHEMA_VERSION
    ensures EventHash(h, e).Ok?
  {
    ApprovedMembersCanonicalize(e.payload.members, 0);
    EventTextIsPrint(h, e);
  }

  /** Approval is all an append needs: a draft is stored exactly when its payload is approved. */
  lemma ApprovedIsStored(h: Hashing, events: seq<AuditEvent>, draft: Draft)
    requires WellFormed(Obj(draft.payload))
    ensures AppendSpec(h, events, draft).Ok? <==> ApprovedPayload(draft.payload, 0)
  {
    if ApprovedPayload(draft.payload, 0) {
      ApprovedCanBeHashed(h, Unhashed(LatestIn(EventsOf(events, draft.organizationId, draft.documentId)), draft));
    }
  }
}
