/** The checkpoint store: an append-only list in which a checkpoint, once stored, is never replaced. */
module Checkpoints {
  import opened Results
  import opened Texts

  datatype Checkpoint = Checkpoint(organizationId: Text, documentId: Text, sequence: int, eventHash: Text)

  predicate IsOf(row: Checkpoint, organizationId: Text, documentId: Text) {
    row.organizationId == organizationId && row.documentId == documentId
  }

  predicate IsAt(row: Checkpoint, organizationId: Text, documentId: Text, sequence: int) {
    IsOf(row, organizationId, documentId) && row.sequence == sequence
  }

  /** At most one checkpoint for each position of each document. */
  ghost predicate OnePerPosition(records: seq<Checkpoint>) {
    forall i, j :: 0 <= i < j < |records| ==> !IsAt(records[j], records[i].organizationId, records[i].documentId, records[i].sequence)
  }

  /** `latest` is the checkpoint of the document with the highest sequence, or nothing if there is none. */
  ghost predicate IsLatest(records: seq<Checkpoint>, organizationId: Text, documentId: Text, latest: Option<Checkpoint>) {
    match latest
    case None => forall row :: row in records ==> !IsOf(row, organizationId, documentId)
    case Some(c) =>
      && c in records && IsOf(c, organizationId, documentId)
      && (forall row :: row in records && IsOf(row, organizationId, documentId) ==> row.sequence <= c.sequence)
  }

  function LatestOf(records: seq<Checkpoint>, organizationId: Text, documentId: Text): (latest: Option<Checkpoint>)
    ensures IsLatest(records, organizationId, documentId, latest)
  {
    if records == [] then None
    else
      var row := records[|records| - 1];
      var before := LatestOf(records[..|records| - 1], organizationId, documentId);
      assert forall x :: x in records <==> x == row || x in records[..|records| - 1];
      if IsOf(row, organizationId, documentId) && (before == None || row.sequence > before.value.sequence) then Some(row) else before
  }

  datatype PutOutcome = Stored | Exists | Conflict

  function PutSpec(records: seq<Checkpoint>, checkpoint: Checkpoint): PutOutcome {
    if exists row :: row in records && IsAt(row, checkpoint.organizationId, checkpoint.documentId, checkpoint.sequence) then
      if checkpoint in records then Exists else Conflict
    else Stored
  }

  /** The same position of the same document with another hash. */
  predicate ContradictsAt(row: Checkpoint, checkpoint: Checkpoint) {
    && row.organizationId == checkpoint.organizationId && row.documentId == checkpoint.documentId
    && row.sequence == checkpoint.sequence && row.eventHash != checkpoint.eventHash
  }

  lemma PutExactly(records: seq<Checkpoint>, checkpoint: Checkpoint)
    requires OnePerPosition(records)
    ensures PutSpec(records, checkpoint) == Conflict <==> exists i :: 0 <= i < |records| && ContradictsAt(records[i], checkpoint)
    ensures PutSpec(records, checkpoint) == Exists <==> checkpoint in records
  {
    forall i | 0 <= i < |records| && ContradictsAt(records[i], checkpoint)
      ensures PutSpec(records, checkpoint) == Conflict && checkpoint !in records
    {
      assert records[i] in records && IsAt(records[i], checkpoint.organizationId, checkpoint.documentId, checkpoint.sequence);
    }
    if PutSpec(records, checkpoint) == Conflict {
      var row :| row in records && IsAt(row, checkpoint.organizationId, checkpoint.documentId, checkpoint.sequence);
      var i :| 0 <= i < |records| && records[i] == row;
      assert ContradictsAt(records[i], checkpoint);
    }
  }

  class CheckpointStore {
    var records: seq<Checkpoint>

    constructor ()
      ensures records == []
    {
      records := [];
    }

    /** Stores a checkpoint for a free position; the same one again is fine, another one is a conflict. */
    method PutIfAbsent(checkpoint: Checkpoint) returns (outcome: PutOutcome)
      requires OnePerPosition(records)
      modifies this
      ensures outcome == PutSpec(old(records), checkpoint)
      ensures outcome == Conflict <==> exists i :: 0 <= i < |old(records)| && ContradictsAt(old(records)[i], checkpoint)
      ensures outcome == Exists <==> checkpoint in old(records)
      ensures records == if outcome == Stored then old(records) + [checkpoint] else old(records)
      ensures OnePerPosition(records)
    {
      PutExactly(records, checkpoint);
      for i := 0 to |records|
        invariant records == old(records)
        invariant forall j :: 0 <= j < i ==> !IsAt(records[j], checkpoint.organizationId, checkpoint.documentId, checkpoint.sequence)
      {
        if IsAt(records[i], checkpoint.organizationId, checkpoint.documentId, checkpoint.sequence) {
          assert records[i] in records;
          if records[i].eventHash != checkpoint.eventHash {
            assert forall j :: 0 <= j < |records| && records[j] == checkpoint ==> j == i;
            return Conflict;
          }
          assert records[i] == checkpoint;
          return Exists;
        }
      }
      records := records + [checkpoint];
      return Stored;
    }

    /** Filters the document's checkpoints and keeps the first one with the highest sequence. */
    method GetLatest(organizationId: Text, documentId: Text) returns (latest: Option<Checkpoint>)
      ensures latest == LatestOf(records, organizationId, documentId)
    {
      latest := None;
      for i := 0 to |records|
        invariant latest == LatestOf(records[..i], organizationId, documentId)
      {
        assert records[..i + 1][..i] == records[..i];
        if IsOf(records[i], organizationId, documentId) && (latest == None || records[i].sequence > latest.value.sequence) {
          latest := Some(records[i]);
        }
      }
      assert records[..|records|] == records;
    }
  }

  /** What storing does to the latest checkpoint of its document and of the others. */
  lemma PutLatest(records: seq<Checkpoint>, checkpoint: Checkpoint, organizationId: Text, documentId: Text)
    ensures var after := LatestOf(records + [checkpoint], organizationId, documentId);
            var before := LatestOf(records, organizationId, documentId);
            after == if IsOf(checkpoint, organizationId, documentId) && (before == None || checkpoint.sequence > before.value.sequence)
                     then Some(checkpoint) else before
  {
    assert (records + [checkpoint])[..|records|] == records;
  }
}
