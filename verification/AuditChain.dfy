/** Hash-chained audit events: the text that is hashed, when a list of events is a chain, and what two
    chains with a hash in common must share. The hash function and the printing of instants are
    parameters; where it matters, `hash` is assumed to tell the texts at hand apart. */
module AuditChain {
  import opened Results
  import opened Texts
  import opened CanonicalJson
  import opened JsonText
  import opened AuditPayload

  const SCHEMA_VERSION := 1

  const GENESIS := Repeat(48, 64)

  const DOCUMENT_FINALIZED := Ascii("document_finalized")

  const ACTOR_ID := Ascii("actorId")
  const ACTOR_TYPE := Ascii("actorType")
  const OCCURRED_AT := Ascii("occurredAt")
  const PAYLOAD := Ascii("payload")
  const PREVIOUS_EVENT_HASH := Ascii("previousEventHash")
  const SCHEMA_VERSION_KEY := Ascii("schemaVersion")
  const SEQUENCE := Ascii("sequence")
  const TYPE := Ascii("type")

  datatype AuditEvent = AuditEvent(
    id: Text,
    organizationId: Text,
    documentId: Text,
    sequence: int,
    kind: Text,
    actorType: Text,
    actorId: Text,
    occurredAt: int,
    payload: Js,
    previousEventHash: Text,
    eventHash: Text,
    chainVersion: int)

  /** sha256 in hexadecimal, and Date.prototype.toISOString. */
  datatype Hashing = Hashing(hash: Text -> Text, iso: int -> Text)

  /** Different instants print differently. */
  ghost predicate TellsInstants(h: Hashing) {
    forall x, y :: h.iso(x) == h.iso(y) ==> x == y
  }

  predicate IsRecord(payload: Js) {
    payload.Obj?
  }

  /** What is hashed in place of a payload that is no object. */
  function RecordOf(payload: Js): Js {
    if IsRecord(payload) then payload else Obj([])
  }

  /** toCanonicalAuditEventV1, given the canonical payload. */
  function EventDocument(h: Hashing, e: AuditEvent, payload: Js): Js {
    Obj([Member(ACTOR_ID, Str(e.actorId)),
         Member(ACTOR_TYPE, Str(e.actorType)),
         Member(OCCURRED_AT, Str(h.iso(e.occurredAt))),
         Member(PAYLOAD, payload),
         Member(PREVIOUS_EVENT_HASH, Str(e.previousEventHash)),
         Member(SCHEMA_VERSION_KEY, Num(SCHEMA_VERSION)),
         Member(SEQUENCE, Num(e.sequence)),
         Member(TYPE, Str(e.kind))])
  }

  /** The text computeAuditEventHash hashes. */
  function EventText(h: Hashing, e: AuditEvent): Result<Text> {
    if e.chainVersion != SCHEMA_VERSION then Err(UnsupportedSchemaVersion)
    else
      var payload :- Canon(RecordOf(e.payload));
      Serialize(EventDocument(h, e, payload))
  }

  function EventHash(h: Hashing, e: AuditEvent): Result<Text> {
    var text :- EventText(h, e);
    Ok(h.hash(text))
  }

  /* ---- the text determines the event ---- */

  /** The members the hash covers. */
  ghost predicate AgreeOnHashed(a: AuditEvent, b: AuditEvent) {
    && a.kind == b.kind
    && a.actorType == b.actorType
    && a.actorId == b.actorId
    && a.occurredAt == b.occurredAt
    && a.sequence == b.sequence
    && a.previousEventHash == b.previousEventHash
    && Canon(RecordOf(a.payload)) == Canon(RecordOf(b.payload))
  }

  lemma EventKeysInOrder(h: Hashing, e: AuditEvent, payload: Js)
    ensures InOrder(EventDocument(h, e, payload).members)
    ensures forall i :: 0 <= i < 8 ==> EventDocument(h, e, payload).members[i].key != PROTO
  {
    EarlyKeys();
    LateKeys();
    EightInOrder(EventDocument(h, e, payload).members);
    EventKeysAreOrdinary(h, e, payload);
  }

  lemma EventKeysAreOrdinary(h: Hashing, e: AuditEvent, payload: Js)
    ensures forall i :: 0 <= i < 8 ==> EventDocument(h, e, payload).members[i].key != PROTO
  {
    OrdinaryKeys();
  }

  lemma EightInOrder(m: seq<Member>)
    requires |m| == 8
    requires Before(m[0].key, m[1].key) && Before(m[1].key, m[2].key) && Before(m[2].key, m[3].key) && Before(m[3].key, m[4].key)
    requires Before(m[4].key, m[5].key) && Before(m[5].key, m[6].key) && Before(m[6].key, m[7].key)
    ensures InOrder(m)
  {
    NeighboursInOrder(m);
  }

  lemma EarlyKeys()
    ensures Before(ACTOR_ID, ACTOR_TYPE) && Before(ACTOR_TYPE, OCCURRED_AT) && Before(OCCURRED_AT, PAYLOAD) && Before(PAYLOAD, PREVIOUS_EVENT_HASH)
  {
    NextKey("actorId", "actorType", 5);
    NextKey("actorType", "occurredAt", 0);
    NextKey("occurredAt", "payload", 0);
    NextKey("payload", "previousEventHash", 1);
  }

  lemma LateKeys()
    ensures Before(PREVIOUS_EVENT_HASH, SCHEMA_VERSION_KEY) && Before(SCHEMA_VERSION_KEY, SEQUENCE) && Before(SEQUENCE, TYPE)
  {
    NextKey("previousEventHash", "schemaVersion", 0);
    NextKey("schemaVersion", "sequence", 1);
    NextKey("sequence", "type", 0);
  }

  lemma OrdinaryKeys()
    ensures ACTOR_ID != PROTO && ACTOR_TYPE != PROTO && OCCURRED_AT != PROTO && PAYLOAD != PROTO
    ensures PREVIOUS_EVENT_HASH != PROTO && SCHEMA_VERSION_KEY != PROTO && SEQUENCE != PROTO && TYPE != PROTO
  {
    assert ACTOR_ID[0] == 97 && ACTOR_TYPE[0] == 97 && OCCURRED_AT[0] == 111 && PAYLOAD[0] == 112;
    assert PREVIOUS_EVENT_HASH[0] == 112 && SCHEMA_VERSION_KEY[0] == 115 && SEQUENCE[0] == 115 && TYPE[0] == 116;
  }

  lemma NextKey(a: string, b: string, k: nat)
    requires forall i :: 0 <= i < |a| ==> a[i] as int < 128
    requires forall i :: 0 <= i < |b| ==> b[i] as int < 128
    requires k < |a| && k < |b| && a[..k] == b[..k] && a[k] < b[k] && a[0] >= 'a' && b[0] >= 'a'
    ensures Before(Ascii(a), Ascii(b))
  {
    var x, y := Ascii(a), Ascii(b);
    assert x[..k] == y[..k] by {
      forall i | 0 <= i < k
        ensures x[i] == y[i]
      {
        assert a[i] == a[..k][i] && b[i] == b[..k][i];
      }
    }
    LessAt(x, y, k);
    assert !IsDigit(x[0]) && !IsDigit(y[0]);
  }

  lemma {:induction false} NeighboursInOrder(members: seq<Member>)
    requires forall i :: 0 < i < |members| ==> Before(members[i - 1].key, members[i].key)
    ensures InOrder(members)
  {
    if members != [] {
      var last := |members| - 1;
      NeighboursInOrder(members[..last]);
      forall i | 0 <= i < last
        ensures Before(members[i].key, members[last].key)
      {
        if i < last - 1 {
          assert Before(members[..last][i].key, members[..last][last - 1].key);
          BeforeIsTransitive(members[i].key, members[last - 1].key, members[last].key);
        }
      }
      forall i, j | 0 <= i < j < |members|
        ensures Before(members[i].key, members[j].key)
      {
        if j < last {
          assert members[..last][i] == members[i] && members[..last][j] == members[j];
        }
      }
    }
  }

  ghost predicate Readable(e: AuditEvent) {
    WellFormed(e.payload)
  }

  /** The event document is canonical as it stands, so the text is its print. */
  lemma EventTextIsPrint(h: Hashing, e: AuditEvent)
    requires Readable(e) && e.chainVersion == SCHEMA_VERSION && Canon(RecordOf(e.payload)).Ok?
    ensures var doc := EventDocument(h, e, Canon(RecordOf(e.payload)).value);
            IsCanonical(doc) && Canon(doc) == Ok(doc) && EventText(h, e) == Ok(Print(doc))
  {
    var payload := Canon(RecordOf(e.payload)).value;
    CanonGivesCanonical(RecordOf(e.payload));
    EventKeysInOrder(h, e, payload);
    var doc := EventDocument(h, e, payload);
    CanonKeepsCanonical(doc);
  }

  /** The object has the value at the name, and nothing else there. */
  ghost predicate HasAt(doc: Js, name: Text, value: Js) {
    && doc.Obj?
    && (exists i :: 0 <= i < |doc.members| && doc.members[i] == Member(name, value))
    && (forall i :: 0 <= i < |doc.members| && doc.members[i].key == name ==> doc.members[i].value == value)
  }

  /** Who did what, when, at the names of the hashed document. */
  ghost predicate NamesTheAct(doc: Js, e: AuditEvent, instant: Text, payload: Js) {
    && HasAt(doc, Ascii("actorId"), Str(e.actorId))
    && HasAt(doc, Ascii("actorType"), Str(e.actorType))
    && HasAt(doc, Ascii("occurredAt"), Str(instant))
    && HasAt(doc, Ascii("payload"), payload)
  }

  /** What it is and where it stands in the chain. */
  ghost predicate NamesTheLink(doc: Js, e: AuditEvent) {
    && HasAt(doc, Ascii("previousEventHash"), Str(e.previousEventHash))
    && HasAt(doc, Ascii("schemaVersion"), Num(1))
    && HasAt(doc, Ascii("sequence"), Num(e.sequence))
    && HasAt(doc, Ascii("type"), Str(e.kind))
  }

  /** What is hashed, read back: an object with these eight members and no other. */
  lemma HashedTextReads(h: Hashing, e: AuditEvent)
    requires Readable(e) && e.chainVersion == 1 && Canon(RecordOf(e.payload)).Ok?
    ensures EventText(h, e).Ok? && EventHash(h, e) == Ok(h.hash(EventText(h, e).value))
    ensures Read(EventText(h, e).value).Some?
    ensures var doc := Read(EventText(h, e).value).value;
            && doc.Obj? && |doc.members| == 8
            && NamesTheAct(doc, e, h.iso(e.occurredAt), Canon(if e.payload.Obj? then e.payload else Obj([])).value)
            && NamesTheLink(doc, e)
  {
    var payload := Canon(RecordOf(e.payload)).value;
    var doc := EventDocument(h, e, payload);
    EventTextIsPrint(h, e);
    CanonicalIsPrintable(doc);
    ReadEmitted(doc, []);
    EventKeysDiffer(h, e, payload);
    EarlyMembers(h, e, payload);
    LateMembers(h, e, payload);
  }

  lemma EventKeysDiffer(h: Hashing, e: AuditEvent, payload: Js)
    ensures var m := EventDocument(h, e, payload).members; forall i, j :: 0 <= i < j < |m| ==> m[i].key != m[j].key
  {
    EventKeysInOrder(h, e, payload);
    var m := EventDocument(h, e, payload).members;
    forall i, j | 0 <= i < j < |m|
      ensures m[i].key != m[j].key
    {
      assert Before(m[i].key, m[j].key);
      BeforeIsStrict(m[i].key);
    }
  }

  lemma MemberAt(doc: Js, i: nat)
    requires doc.Obj? && i < |doc.members|
    requires forall j, k :: 0 <= j < k < |doc.members| ==> doc.members[j].key != doc.members[k].key
    ensures HasAt(doc, doc.members[i].key, doc.members[i].value)
  {
    assert doc.members[i] == Member(doc.members[i].key, doc.members[i].value);
  }

  lemma EarlyMembers(h: Hashing, e: AuditEvent, payload: Js)
    requires var m := EventDocument(h, e, payload).members; forall i, j :: 0 <= i < j < |m| ==> m[i].key != m[j].key
    ensures var doc := EventDocument(h, e, payload);
            NamesTheAct(doc, e, h.iso(e.occurredAt), payload)
  {
    var doc := EventDocument(h, e, payload);
    MemberAt(doc, 0);
    MemberAt(doc, 1);
    MemberAt(doc, 2);
    MemberAt(doc, 3);
  }

  lemma LateMembers(h: Hashing, e: AuditEvent, payload: Js)
    requires var m := EventDocument(h, e, payload).members; forall i, j :: 0 <= i < j < |m| ==> m[i].key != m[j].key
    ensures var doc := EventDocument(h, e, payload);
            NamesTheLink(doc, e)
  {
    var doc := EventDocument(h, e, payload);
    MemberAt(doc, 4);
    MemberAt(doc, 5);
    MemberAt(doc, 6);
    MemberAt(doc, 7);
  }

  /** Two events with the same text agree on every hashed member. */
  lemma SameTextSameEvent(h: Hashing, a: AuditEvent, b: AuditEvent)
    requires TellsInstants(h) && Readable(a) && Readable(b)
    requires EventText(h, a).Ok? && EventText(h, b).Ok?
    ensures EventText(h, a) == EventText(h, b) <==> AgreeOnHashed(a, b)
  {
    EventTextIsPrint(h, a);
    EventTextIsPrint(h, b);
    var x := EventDocument(h, a, Canon(RecordOf(a.payload)).value);
    var y := EventDocument(h, b, Canon(RecordOf(b.payload)).value);
    CanonicalIsPrintable(x);
    CanonicalIsPrintable(y);
    ReadEmitted(x, []);
    ReadEmitted(y, []);
    SameDocumentSameEvent(h, a, b, Canon(RecordOf(a.payload)).value, Canon(RecordOf(b.payload)).value);
  }

  lemma SameDocumentSameEvent(h: Hashing, a: AuditEvent, b: AuditEvent, p: Js, q: Js)
    requires TellsInstants(h)
    ensures EventDocument(h, a, p) == EventDocument(h, b, q) <==>
              && a.kind == b.kind && a.actorType == b.actorType && a.actorId == b.actorId && a.occurredAt == b.occurredAt
              && a.sequence == b.sequence && a.previousEventHash == b.previousEventHash && p == q
  {
    var x, y := EventDocument(h, a, p), EventDocument(h, b, q);
    if x == y {
      forall i | 0 <= i < 8
        ensures x.members[i] == y.members[i]
      {
      }
    }
  }

  /* ---- chains ---- */

  function PreviousHash(chain: seq<AuditEvent>, i: nat): Text
    requires i < |chain|
  {
    if i == 0 then GENESIS else chain[i - 1].eventHash
  }

  ghost predicate LinkHolds(h: Hashing, chain: seq<AuditEvent>, i: nat)
    requires i < |chain|
  {
    var e := chain[i];
    && e.sequence == i
    && e.chainVersion == SCHEMA_VERSION
    && e.previousEventHash == PreviousHash(chain, i)
    && IsRecord(e.payload) && ApprovedPayload(e.payload.members, 0)
    && EventHash(h, e) == Ok(e.eventHash)
  }

  /** Numbered from 0, each event linked to the one before it and hashed as it is stored. */
  ghost predicate Chained(h: Hashing, chain: seq<AuditEvent>) {
    forall i :: 0 <= i < |chain| ==> LinkHolds(h, chain, i)
  }

  ghost predicate AllReadable(events: seq<AuditEvent>) {
    forall i :: 0 <= i < |events| ==> Readable(events[i])
  }

  /** All the texts that get hashed when the events are verified are among `texts`. */
  ghost predicate Covers(h: Hashing, texts: set<Text>, events: seq<AuditEvent>) {
    forall i :: 0 <= i < |events| ==> CoversOne(h, texts, events[i])
  }

  ghost predicate CoversOne(h: Hashing, texts: set<Text>, e: AuditEvent) {
    EventText(h, e).Ok? ==> EventText(h, e).value in texts
  }

  /** The hash has no collision among the texts. */
  ghost predicate CollisionFree(h: Hashing, texts: set<Text>) {
    forall x, y :: x in texts && y in texts && h.hash(x) == h.hash(y) ==> x == y
  }

  /** The first `n` events agree on every hashed member and on their hashes. */
  ghost predicate AgreeUpTo(a: seq<AuditEvent>, b: seq<AuditEvent>, n: nat) {
    && n <= |a| && n <= |b|
    && (forall i :: 0 <= i < n ==> AgreeOnHashed(a[i], b[i]) && a[i].eventHash == b[i].eventHash)
  }

  lemma SameHashSameEvent(h: Hashing, texts: set<Text>, a: AuditEvent, b: AuditEvent)
    requires TellsInstants(h) && CollisionFree(h, texts) && Readable(a) && Readable(b)
    requires EventHash(h, a) == Ok(a.eventHash) && EventHash(h, b) == Ok(b.eventHash) && a.eventHash == b.eventHash
    requires EventText(h, a).value in texts && EventText(h, b).value in texts
    ensures AgreeOnHashed(a, b)
  {
    SameTextSameEvent(h, a, b);
  }

  /** A hash in common fixes everything before it. */
  lemma {:induction false} SameHashSamePast(h: Hashing, texts: set<Text>, a: seq<AuditEvent>, b: seq<AuditEvent>, n: nat)
    requires TellsInstants(h) && CollisionFree(h, texts)
    requires Chained(h, a) && Chained(h, b) && AllReadable(a) && AllReadable(b) && Covers(h, texts, a) && Covers(h, texts, b)
    requires 0 < n <= |a| && n <= |b| && a[n - 1].eventHash == b[n - 1].eventHash
    ensures AgreeUpTo(a, b, n)
  {
    assert LinkHolds(h, a, n - 1) && LinkHolds(h, b, n - 1);
    SameHashSameEvent(h, texts, a[n - 1], b[n - 1]);
    if n > 1 {
      SameHashSamePast(h, texts, a, b, n - 1);
    }
  }

  /** Two chains with the same head hash are the same chain, as far as the hash covers it. */
  lemma SameHeadSameChain(h: Hashing, texts: set<Text>, a: seq<AuditEvent>, b: seq<AuditEvent>)
    requires TellsInstants(h) && CollisionFree(h, texts)
    requires Chained(h, a) && Chained(h, b) && AllReadable(a) && AllReadable(b) && Covers(h, texts, a) && Covers(h, texts, b)
    requires a != [] && b != [] && a[|a| - 1].eventHash == b[|b| - 1].eventHash
    ensures |a| == |b| && AgreeUpTo(a, b, |a|)
  {
    assert LinkHolds(h, a, |a| - 1) && LinkHolds(h, b, |b| - 1);
    SameHashSameEvent(h, texts, a[|a| - 1], b[|b| - 1]);
    SameHashSamePast(h, texts, a, b, |a|);
  }
}
