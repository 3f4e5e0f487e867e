/** The stores as objects: each keeps its rows in one array, finds a row by scanning, and overwrites it in
    place. Every method is proved to apply the row update of `Envelope` to the row it finds and to leave
    every other record alone. */
module Stores {
  import opened Results
  import opened Lifecycle
  import opened Envelope
  import opened Records

  /** What a keyed call returns: the update applied to the row found, or not-found. */
  ghost function Updated<T>(records: seq<Record<T>>, organizationId: Id, id: Id, update: T -> Result<T>): Result<T> {
    var row :- Found(records, organizationId, id);
    update(row)
  }

  class DocumentStore {
    var records: seq<Record<Document>>

    constructor (records: seq<Record<Document>>)
      ensures this.records == records
    {
      this.records := records;
    }

    /** bumpDocument: the version check, then the caller's update, then the version goes up. */
    method BumpDocument(organizationId: Id, id: Id, expectedVersion: nat, update: Document -> Result<Document>) returns (r: Result<Document>)
      modifies this
      ensures r == Updated(old(records), organizationId, id, (d: Document) => Bump(d, expectedVersion, update(d)))
      ensures records == Overwritten(old(records), organizationId, id, r)
    {
      var index := FindRecord(records, organizationId, id);
      if index == -1 {
        return Err(NotFound);
      }
      var current := records[index].row;
      if current.version != expectedVersion {
        return Err(DocumentVersionConflict);
      }
      var next := update(current);
      if next.Err? {
        return next;
      }
      var updated := next.value.(version := current.version + 1);
      records := records[index := records[index].(row := updated)];
      return Ok(updated);
    }

    method SetPreparationState(organizationId: Id, id: Id, expectedVersion: nat, state: DocumentState) returns (r: Result<Document>)
      modifies this
      ensures r == Updated(old(records), organizationId, id, (d: Document) => Envelope.SetPreparationState(d, expectedVersion, state))
      ensures records == Overwritten(old(records), organizationId, id, r)
    {
      r := BumpDocument(organizationId, id, expectedVersion, (current: Document) => Ok(current.(state := state)));
    }

    method MarkSent(organizationId: Id, id: Id, expectedVersion: nat, signingRevisionId: Id, expiresAt: Option<int>) returns (r: Result<Document>)
      modifies this
      ensures r == Updated(old(records), organizationId, id, (d: Document) => Envelope.MarkSent(d, expectedVersion, signingRevisionId, expiresAt))
      ensures records == Overwritten(old(records), organizationId, id, r)
    {
      r := BumpDocument(organizationId, id, expectedVersion, (current: Document) =>
        Ok(current.(state := Sent, signingRevisionId := Some(signingRevisionId), expiresAt := expiresAt)));
    }

    method MarkDeclined(organizationId: Id, id: Id, expectedVersion: nat) returns (r: Result<Document>)
      modifies this
      ensures r == Updated(old(records), organizationId, id, (d: Document) => MarkDocumentDeclined(d, expectedVersion))
      ensures records == Overwritten(old(records), organizationId, id, r)
    {
      r := BumpDocument(organizationId, id, expectedVersion, (current: Document) =>
        if current.state != Sent && current.state != InProgress then Err(DocumentStateConflict)
        else Ok(current.(state := Declined)));
    }

    method MarkVoided(organizationId: Id, id: Id, expectedVersion: nat) returns (r: Result<Document>)
      modifies this
      ensures r == Updated(old(records), organizationId, id, (d: Document) => Envelope.MarkVoided(d, expectedVersion))
      ensures records == Overwritten(old(records), organizationId, id, r)
    {
      r := BumpDocument(organizationId, id, expectedVersion, (current: Document) =>
        if current.state != Draft && current.state != Prepared && current.state != Sent && current.state != InProgress
        then Err(DocumentStateConflict)
        else Ok(current.(state := Voided)));
    }

    method MarkInProgress(organizationId: Id, id: Id, expectedVersion: nat) returns (r: Result<Document>)
      modifies this
      ensures r == Updated(old(records), organizationId, id, (d: Document) => Envelope.MarkInProgress(d, expectedVersion))
      ensures records == Overwritten(old(records), organizationId, id, r)
    {
      r := BumpDocument(organizationId, id, expectedVersion, (current: Document) =>
        if current.state != Sent && current.state != InProgress then Err(DocumentStateConflict)
        else Ok(current.(state := InProgress)));
    }

    method MarkCompleted(organizationId: Id, id: Id, expectedVersion: nat) returns (r: Result<Document>)
      modifies this
      ensures r == Updated(old(records), organizationId, id, (d: Document) => Envelope.MarkCompleted(d, expectedVersion))
      ensures records == Overwritten(old(records), organizationId, id, r)
    {
      r := BumpDocument(organizationId, id, expectedVersion, (current: Document) =>
        if current.state != Sent && current.state != InProgress then Err(DocumentStateConflict)
        else Ok(current.(state := Completed)));
    }

    method ClaimProcessingLease(organizationId: Id, id: Id, expectedVersion: nat, owner: Id, leaseUntil: int, now: int) returns (r: Result<Document>)
      modifies this
      ensures r == Updated(old(records), organizationId, id, (d: Document) => Envelope.ClaimProcessingLease(d, expectedVersion, owner, leaseUntil, now))
      ensures records == Overwritten(old(records), organizationId, id, r)
    {
      r := BumpDocument(organizationId, id, expectedVersion, (current: Document) =>
        if current.leaseUntil.Some? && current.leaseUntil.value >= now && current.leaseOwner != Some(owner) then Err(DocumentLeaseConflict)
        else if current.state != Sent && current.state != InProgress && current.state != Completed
                && current.state != FinalizationFailed && current.state != Finalizing
        then Err(DocumentStateConflict)
        else
          var nextState := if current.state == Completed || current.state == FinalizationFailed then Finalizing
                           else if current.state == Sent then InProgress
                           else current.state;
          Ok(current.(state := nextState, leaseOwner := Some(owner), leaseUntil := Some(leaseUntil),
                      finalizationAttemptCount := if nextState == Finalizing then current.finalizationAttemptCount + 1
                                                  else current.finalizationAttemptCount)));
    }

    method CommitFlattenedRevision(organizationId: Id, id: Id, expectedVersion: nat, owner: Id, revisionId: Id, finalize: bool) returns (r: Result<Document>)
      modifies this
      ensures r == Updated(old(records), organizationId, id, (d: Document) => Envelope.CommitFlattenedRevision(d, expectedVersion, owner, revisionId, finalize))
      ensures records == Overwritten(old(records), organizationId, id, r)
    {
      r := BumpDocument(organizationId, id, expectedVersion, (current: Document) =>
        if current.leaseOwner != Some(owner) then Err(DocumentLeaseConflict)
        else if finalize then
          if current.state != Finalizing && current.state != Completed then Err(DocumentStateConflict)
          else Ok(current.(state := Finalized, currentRevisionId := Some(revisionId), leaseOwner := None, leaseUntil := None))
        else Ok(current.(currentRevisionId := Some(revisionId), leaseOwner := None, leaseUntil := None)));
    }

    method MarkFinalizationFailed(organizationId: Id, id: Id, owner: Id) returns (r: Result<Document>)
      modifies this
      ensures r == Updated(old(records), organizationId, id, (d: Document) => Ok(Envelope.MarkFinalizationFailed(d, owner)))
      ensures records == Overwritten(old(records), organizationId, id, r)
    {
      var index := FindRecord(records, organizationId, id);
      if index == -1 {
        return Err(NotFound);
      }
      var current := records[index].row;
      if current.leaseOwner != Some(owner) && current.state != Finalizing {
        return Ok(current);
      }
      var updated := current.(state := if current.state == Finalizing then FinalizationFailed else current.state,
                              leaseOwner := None, leaseUntil := None, version := current.version + 1);
      records := records[index := records[index].(row := updated)];
      return Ok(updated);
    }

    /** Returns nothing, and a missing document is not an error here. */
    method ReleaseProcessingLease(organizationId: Id, id: Id, owner: Id)
      modifies this
      ensures records == Overwritten(old(records), organizationId, id,
                                     Updated(old(records), organizationId, id, (d: Document) => Ok(Envelope.ReleaseProcessingLease(d, owner))))
    {
      var index := FindRecord(records, organizationId, id);
      if index == -1 {
        return;
      }
      var current := records[index].row;
      if current.leaseOwner != Some(owner) {
        return;
      }
      records := records[index := records[index].(row := current.(leaseOwner := None, leaseUntil := None, version := current.version + 1))];
    }
  }

  class SignerStore {
    var records: seq<Record<Signer>>

    constructor (records: seq<Record<Signer>>)
      ensures this.records == records
    {
      this.records := records;
    }

    method MarkDeclined(organizationId: Id, id: Id, expectedVersion: nat) returns (r: Result<Signer>)
      modifies this
      ensures r == Updated(old(records), organizationId, id, row => MarkSignerDeclined(row, expectedVersion))
      ensures records == Overwritten(old(records), organizationId, id, r)
    {
      var index := FindRecord(records, organizationId, id);
      if index == -1 {
        return Err(NotFound);
      }
      var current := records[index].row;
      if current.version != expectedVersion || current.status != Pending {
        return Err(SignerVersionConflict);
      }
      var updated := current.(status := SignerDeclined, version := current.version + 1);
      records := records[index := records[index].(row := updated)];
      return Ok(updated);
    }

    method MarkSigned(organizationId: Id, id: Id, expectedVersion: nat) returns (r: Result<Signer>)
      modifies this
      ensures r == Updated(old(records), organizationId, id, row => Envelope.MarkSigned(row, expectedVersion))
      ensures records == Overwritten(old(records), organizationId, id, r)
    {
      var index := FindRecord(records, organizationId, id);
      if index == -1 {
        return Err(NotFound);
      }
      var current := records[index].row;
      if current.status == Signed {
        return Ok(current);
      }
      if current.version != expectedVersion || current.status != Pending {
        return Err(SignerVersionConflict);
      }
      var updated := current.(status := Signed, version := current.version + 1);
      records := records[index := records[index].(row := updated)];
      return Ok(updated);
    }
  }

  class SessionStore {
    var records: seq<Record<Session>>

    constructor (records: seq<Record<Session>>)
      ensures this.records == records
    {
      this.records := records;
    }

    /** No second open session for a signer. */
    method Create(organizationId: Id, documentId: Id, id: Id, session: Session) returns (r: Result<Session>)
      modifies this
      ensures r == if OpenSomewhere(old(records), organizationId, session.signerId) then Err(DuplicateOpenSession) else Ok(session)
      ensures records == if r.Ok? then old(records) + [Record(organizationId, documentId, id, session)] else old(records)
    {
      for i := 0 to |records|
        invariant records == old(records)
        invariant forall j :: 0 <= j < i ==> !IsOpenOf(records[j], organizationId, session.signerId)
      {
        if IsOpenOf(records[i], organizationId, session.signerId) {
          return Err(DuplicateOpenSession);
        }
      }
      records := records + [Record(organizationId, documentId, id, session)];
      return Ok(session);
    }

    method Revoke(organizationId: Id, id: Id) returns (r: Result<Session>)
      modifies this
      ensures r == Updated(old(records), organizationId, id, row => RevokeSession(row))
      ensures records == Overwritten(old(records), organizationId, id, r)
    {
      var index := FindRecord(records, organizationId, id);
      if index == -1 {
        return Err(NotFound);
      }
      var current := records[index].row;
      if current.status != Issued && current.status != Active {
        return Err(SessionNotOpen);
      }
      var updated := current.(status := Revoked);
      records := records[index := records[index].(row := updated)];
      return Ok(updated);
    }

    method MarkPresented(organizationId: Id, id: Id) returns (r: Result<Session>)
      modifies this
      ensures r == Updated(old(records), organizationId, id, row => PresentSession(row))
      ensures records == Overwritten(old(records), organizationId, id, r)
    {
      var index := FindRecord(records, organizationId, id);
      if index == -1 {
        return Err(NotFound);
      }
      var current := records[index].row;
      if current.status == Active {
        return Ok(current);
      }
      if current.status != Issued {
        return Err(SessionNotOpen);
      }
      var updated := current.(status := Active);
      records := records[index := records[index].(row := updated)];
      return Ok(updated);
    }

    method MarkExpired(organizationId: Id, id: Id) returns (r: Result<Session>)
      modifies this
      ensures r == Updated(old(records), organizationId, id, row => ExpireSession(row))
      ensures records == Overwritten(old(records), organizationId, id, r)
    {
      var index := FindRecord(records, organizationId, id);
      if index == -1 {
        return Err(NotFound);
      }
      var current := records[index].row;
      if current.status != Issued && current.status != Active {
        return Err(SessionNotOpen);
      }
      var updated := current.(status := SessionExpired);
      records := records[index := records[index].(row := updated)];
      return Ok(updated);
    }

    method ConsumeAndRotate(organizationId: Id, id: Id, expectedVersion: nat, token: Id) returns (r: Result<Session>)
      modifies this
      ensures r == Updated(old(records), organizationId, id, row => Envelope.ConsumeAndRotate(row, expectedVersion, token))
      ensures records == Overwritten(old(records), organizationId, id, r)
    {
      var index := FindRecord(records, organizationId, id);
      if index == -1 {
        return Err(NotFound);
      }
      var current := records[index].row;
      if current.version != expectedVersion || current.consumed || (current.status != Issued && current.status != Active) {
        return Err(SessionNotExchangeable);
      }
      var updated := current.(token := token, consumed := true, status := Active, version := current.version + 1);
      records := records[index := records[index].(row := updated)];
      return Ok(updated);
    }

    method MarkCompleted(organizationId: Id, id: Id) returns (r: Result<Session>)
      modifies this
      ensures r == Updated(old(records), organizationId, id, row => CompleteSession(row))
      ensures records == Overwritten(old(records), organizationId, id, r)
    {
      var index := FindRecord(records, organizationId, id);
      if index == -1 {
        return Err(NotFound);
      }
      var current := records[index].row;
      if current.status == SessionCompleted {
        return Ok(current);
      }
      if current.status != Issued && current.status != Active {
        return Err(SessionNotCompletable);
      }
      var updated := current.(status := SessionCompleted);
      records := records[index := records[index].(row := updated)];
      return Ok(updated);
    }
  }

  predicate IsOpenOf(record: Record<Session>, organizationId: Id, signerId: Id) {
    record.organizationId == organizationId && record.row.signerId == signerId && IsOpen(record.row.status)
  }

  predicate OpenSomewhere(records: seq<Record<Session>>, organizationId: Id, signerId: Id) {
    exists i :: 0 <= i < |records| && IsOpenOf(records[i], organizationId, signerId)
  }

  class FieldStore {
    var records: seq<Record<Field>>

    constructor (records: seq<Record<Field>>)
      ensures this.records == records
    {
      this.records := records;
    }

    /** Removes the rows of the document from the back, and puts the new ones at the end. */
    method ReplaceAll(organizationId: Id, documentId: Id, replacement: seq<Record<Field>>)
      modifies this
      ensures records == Without(old(records), organizationId, documentId) + replacement
    {
      ghost var before := records;
      assert before[..|before|] == before && before[|before|..] == [];
      for index := |records| downto 0
        invariant index <= |before| && |records| >= index
        invariant records == before[..index] + Without(before[index..], organizationId, documentId)
      {
        assert records[index] == before[index];
        assert before[index..] == [before[index]] + before[index + 1..];
        if records[index].organizationId == organizationId && records[index].documentId == documentId {
          records := records[..index] + records[index + 1..];
        }
      }
      records := records + replacement;
    }

    method Complete(organizationId: Id, id: Id) returns (r: Result<Field>)
      modifies this
      ensures r == Updated(old(records), organizationId, id, (row: Field) => Ok(row.(completed := true)))
      ensures records == Overwritten(old(records), organizationId, id, r)
    {
      var index := FindRecord(records, organizationId, id);
      if index == -1 {
        return Err(NotFound);
      }
      var updated := records[index].row.(completed := true);
      records := records[index := records[index].(row := updated)];
      return Ok(updated);
    }

    method MarkFlattened(organizationId: Id, id: Id, revisionId: Id) returns (r: Result<Field>)
      modifies this
      ensures r == Updated(old(records), organizationId, id, (row: Field) => Ok(row.(flattenedRevisionId := Some(revisionId))))
      ensures records == Overwritten(old(records), organizationId, id, r)
    {
      var index := FindRecord(records, organizationId, id);
      if index == -1 {
        return Err(NotFound);
      }
      var updated := records[index].row.(flattenedRevisionId := Some(revisionId));
      records := records[index := records[index].(row := updated)];
      return Ok(updated);
    }
  }

  class ArtifactStore {
    var records: seq<Record<Artifact>>

    constructor (records: seq<Record<Artifact>>)
      ensures this.records == records
    {
      this.records := records;
    }

    /** At most one artifact for a document. */
    method Create(organizationId: Id, documentId: Id, id: Id, artifact: Artifact) returns (r: Result<Artifact>)
      modifies this
      ensures r == if ArtifactsOf(old(records), organizationId, documentId) != [] then Err(ArtifactExists) else Ok(artifact)
      ensures records == if r.Ok? then old(records) + [Record(organizationId, documentId, id, artifact)] else old(records)
    {
      for i := 0 to |records|
        invariant records == old(records)
        invariant ArtifactsOf(records[..i], organizationId, documentId) == []
      {
        assert records[..i + 1][..i] == records[..i];
        if records[i].organizationId == organizationId && records[i].documentId == documentId {
          ArtifactsOfPrefix(records, organizationId, documentId, i + 1);
          return Err(ArtifactExists);
        }
      }
      assert records[..|records|] == records;
      records := records + [Record(organizationId, documentId, id, artifact)];
      return Ok(artifact);
    }
  }

  class RevisionStore {
    var records: seq<Record<Revision>>

    constructor (records: seq<Record<Revision>>)
      ensures this.records == records
    {
      this.records := records;
    }

    method Create(organizationId: Id, documentId: Id, id: Id, revision: Revision)
      modifies this
      ensures records == old(records) + [Record(organizationId, documentId, id, revision)]
    {
      records := records + [Record(organizationId, documentId, id, revision)];
    }
  }

  /** The flatten jobs published; the row is the signer the job is for. */
  class JobPublisher {
    var records: seq<Record<Id>>

    constructor (records: seq<Record<Id>>)
      ensures this.records == records
    {
      this.records := records;
    }

    method Publish(organizationId: Id, documentId: Id, id: Id, signerId: Id)
      modifies this
      ensures records == old(records) + [Record(organizationId, documentId, id, signerId)]
    {
      records := records + [Record(organizationId, documentId, id, signerId)];
    }
  }

  function JobsOf(records: seq<Record<Id>>, organizationId: Id, documentId: Id): set<Id> {
    set i | 0 <= i < |records| && records[i].organizationId == organizationId && records[i].documentId == documentId :: records[i].row
  }

  function ArtifactsOf(records: seq<Record<Artifact>>, organizationId: Id, documentId: Id): seq<Artifact> {
    if records == [] then []
    else
      var last := records[|records| - 1];
      ArtifactsOf(records[..|records| - 1], organizationId, documentId)
      + if last.organizationId == organizationId && last.documentId == documentId then [last.row] else []
  }

  lemma {:induction false} ArtifactsOfPrefix(records: seq<Record<Artifact>>, organizationId: Id, documentId: Id, n: nat)
    requires n <= |records|
    ensures ArtifactsOf(records[..n], organizationId, documentId) <= ArtifactsOf(records, organizationId, documentId)
    decreases |records|
  {
    if n == |records| {
      assert records[..n] == records;
    } else {
      var rest := records[..|records| - 1];
      ArtifactsOfPrefix(rest, organizationId, documentId, n);
      assert rest[..n] == records[..n];
    }
  }
}
