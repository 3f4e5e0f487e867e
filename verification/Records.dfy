/** The array a store keeps: rows of all organizations and documents side by side, found by the first
    match on organization and id. The protocol only ever looks at the rows of one document, its view. */
module Records {
  import opened Results
  import opened Searching
  import opened Envelope

  datatype Record<T> = Record(organizationId: Id, documentId: Id, id: Id, row: T)

  predicate Matches<T>(record: Record<T>, organizationId: Id, id: Id) {
    record.organizationId == organizationId && record.id == id
  }

  ghost predicate IsFirstMatch<T>(records: seq<Record<T>>, organizationId: Id, id: Id, index: int) {
    && -1 <= index < |records|
    && (forall j :: 0 <= j < (if index < 0 then |records| else index) ==> !Matches(records[j], organizationId, id))
    && (index >= 0 ==> Matches(records[index], organizationId, id))
  }

  ghost function IndexOf<T>(records: seq<Record<T>>, organizationId: Id, id: Id): (index: int)
    ensures IsFirstMatch(records, organizationId, id, index)
  {
    FirstIndex(records, (record: Record<T>) => Matches(record, organizationId, id))
  }

  method FindRecord<T>(records: seq<Record<T>>, organizationId: Id, id: Id) returns (index: int)
    ensures index == IndexOf(records, organizationId, id)
    ensures IsFirstMatch(records, organizationId, id, index)
  {
    index := FindIndex(records, (record: Record<T>) => Matches(record, organizationId, id));
  }

  /** The row a keyed call finds, or the stores' not-found error. */
  ghost function Found<T>(records: seq<Record<T>>, organizationId: Id, id: Id): Result<T> {
    var i := IndexOf(records, organizationId, id);
    if i < 0 then Err(NotFound) else Ok(records[i].row)
  }

  /** The array after a keyed call: the found row overwritten when the call succeeds, and nothing else ever. */
  ghost function Overwritten<T>(records: seq<Record<T>>, organizationId: Id, id: Id, updated: Result<T>): seq<Record<T>> {
    var i := IndexOf(records, organizationId, id);
    if updated.Err? || i < 0 then records else records[i := records[i].(row := updated.value)]
  }

  ghost predicate Holds<T>(records: seq<Record<T>>, organizationId: Id, documentId: Id, id: Id) {
    var i := IndexOf(records, organizationId, id);
    i >= 0 && records[i].documentId == documentId
  }

  /** The rows of one document, by id. */
  ghost function View<T>(records: seq<Record<T>>, organizationId: Id, documentId: Id): map<Id, T> {
    map r | r in Ids(records) && Holds(records, organizationId, documentId, r) :: records[IndexOf(records, organizationId, r)].row
  }

  ghost function Ids<T>(records: seq<Record<T>>): set<Id> {
    set i | 0 <= i < |records| :: records[i].id
  }

  lemma ViewMembers<T>(records: seq<Record<T>>, organizationId: Id, documentId: Id, id: Id)
    ensures id in View(records, organizationId, documentId) <==> Holds(records, organizationId, documentId, id)
  {
    var i := IndexOf(records, organizationId, id);
    if i >= 0 {
      assert records[i].id in Ids(records);
    }
  }

  lemma OverwrittenIndex<T>(records: seq<Record<T>>, organizationId: Id, id: Id, updated: Result<T>, org: Id, r: Id)
    ensures var next := Overwritten(records, organizationId, id, updated);
            && IndexOf(next, org, r) == IndexOf(records, org, r)
            && |next| == |records|
            && (forall j :: 0 <= j < |next| ==> next[j].documentId == records[j].documentId)
  {
    var next := Overwritten(records, organizationId, id, updated);
    assert forall j :: 0 <= j < |next| ==> (Matches(next[j], org, r) <==> Matches(records[j], org, r));
    assert IsFirstMatch(records, org, r, IndexOf(next, org, r));
  }

  lemma OverwrittenRow<T>(records: seq<Record<T>>, organizationId: Id, id: Id, updated: Result<T>, org: Id, doc: Id, r: Id)
    ensures var after := View(Overwritten(records, organizationId, id, updated), org, doc);
            var before := View(records, org, doc);
            && (r in after <==> r in before)
            && (r in after ==> after[r] == if org == organizationId && r == id && updated.Ok? then updated.value else before[r])
  {
    var next := Overwritten(records, organizationId, id, updated);
    OverwrittenIndex(records, organizationId, id, updated, org, r);
    ViewMembers(next, org, doc, r);
    ViewMembers(records, org, doc, r);
  }

  /** Overwriting a row shows in the view of its own document and in no other: neither another
      document nor another organization can tell. */
  lemma OverwrittenView<T>(records: seq<Record<T>>, organizationId: Id, id: Id, updated: Result<T>, org: Id, doc: Id)
    ensures var after := View(Overwritten(records, organizationId, id, updated), org, doc);
            var before := View(records, org, doc);
            after == if org == organizationId && updated.Ok? && id in before then before[id := updated.value] else before
  {
    var after := View(Overwritten(records, organizationId, id, updated), org, doc);
    var before := View(records, org, doc);
    forall r
      ensures r in after <==> r in before
      ensures r in after ==> after[r] == if org == organizationId && r == id && updated.Ok? then updated.value else before[r]
    {
      OverwrittenRow(records, organizationId, id, updated, org, doc, r);
    }
    if org == organizationId && updated.Ok? {
      UpdatedMap(before, after, id, updated.value);
    } else {
      assert after == before;
    }
  }

  lemma UpdatedMap<T>(before: map<Id, T>, after: map<Id, T>, id: Id, value: T)
    requires forall r :: r in after <==> r in before
    requires forall r :: r in after ==> after[r] == if r == id then value else before[r]
    ensures after == if id in before then before[id := value] else before
  {
  }

  lemma PushedIndex<T>(records: seq<Record<T>>, record: Record<T>, org: Id, r: Id)
    requires IndexOf(records, record.organizationId, record.id) < 0
    ensures IndexOf(records + [record], org, r) == if Matches(record, org, r) then |records| else IndexOf(records, org, r)
  {
    assert (records + [record])[..|records|] == records;
  }

  lemma PushedRow<T>(records: seq<Record<T>>, record: Record<T>, org: Id, doc: Id, r: Id)
    requires IndexOf(records, record.organizationId, record.id) < 0
    ensures var after, before := View(records + [record], org, doc), View(records, org, doc);
            if Matches(record, org, r) then r !in before && (r in after <==> doc == record.documentId) && (r in after ==> after[r] == record.row)
            else (r in after <==> r in before) && (r in after ==> after[r] == before[r])
  {
    PushedIndex(records, record, org, r);
    ViewMembers(records + [record], org, doc, r);
    ViewMembers(records, org, doc, r);
  }

  /** Pushing a record with a new id adds it to the view of its own document only. */
  lemma PushedView<T>(records: seq<Record<T>>, record: Record<T>, org: Id, doc: Id)
    requires IndexOf(records, record.organizationId, record.id) < 0
    ensures var before := View(records, org, doc);
            View(records + [record], org, doc)
            == if org == record.organizationId && doc == record.documentId then before[record.id := record.row] else before
  {
    var after, before := View(records + [record], org, doc), View(records, org, doc);
    forall r
      ensures if Matches(record, org, r) then r !in before && (r in after <==> doc == record.documentId) && (r in after ==> after[r] == record.row)
              else (r in after <==> r in before) && (r in after ==> after[r] == before[r])
    {
      PushedRow(records, record, org, doc, r);
    }
    ExtendedMap(before, after, record, org, doc);
  }

  lemma ExtendedMap<T>(before: map<Id, T>, after: map<Id, T>, record: Record<T>, org: Id, doc: Id)
    requires forall r :: if Matches(record, org, r) then r !in before && (r in after <==> doc == record.documentId) && (r in after ==> after[r] == record.row)
                         else (r in after <==> r in before) && (r in after ==> after[r] == before[r])
    ensures after == if org == record.organizationId && doc == record.documentId then before[record.id := record.row] else before
  {
    if org == record.organizationId && doc == record.documentId {
      assert Matches(record, org, record.id);
      assert after == before[record.id := record.row];
    } else {
      assert after == before;
    }
  }

  /* ---- replacing all rows of a document ---- */

  /** The records that are not of the document, in their order. */
  function Without<T>(records: seq<Record<T>>, organizationId: Id, documentId: Id): seq<Record<T>> {
    if records == [] then []
    else if records[0].organizationId == organizationId && records[0].documentId == documentId
    then Without(records[1..], organizationId, documentId)
    else [records[0]] + Without(records[1..], organizationId, documentId)
  }

  lemma {:induction false} WithoutMember<T>(records: seq<Record<T>>, organizationId: Id, documentId: Id, x: Record<T>)
    ensures x in Without(records, organizationId, documentId)
            <==> x in records && (x.organizationId != organizationId || x.documentId != documentId)
  {
    if records != [] {
      WithoutMember(records[1..], organizationId, documentId, x);
    }
  }

  lemma {:induction false} WithoutIsUnique<T>(records: seq<Record<T>>, organizationId: Id, documentId: Id)
    requires Unique(records)
    ensures Unique(Without(records, organizationId, documentId))
  {
    if records != [] {
      var rest := Without(records[1..], organizationId, documentId);
      WithoutIsUnique(records[1..], organizationId, documentId);
      forall j | 0 <= j < |rest|
        ensures !Matches(rest[j], records[0].organizationId, records[0].id)
      {
        WithoutMember(records[1..], organizationId, documentId, rest[j]);
        assert rest[j] in records[1..];
      }
    }
  }

  /** Where ids are unique, the view of a document shows exactly its records. */
  lemma UniqueView<T>(records: seq<Record<T>>, organizationId: Id, documentId: Id, id: Id, row: T)
    requires Unique(records)
    ensures Record(organizationId, documentId, id, row) in records
            <==> id in View(records, organizationId, documentId) && View(records, organizationId, documentId)[id] == row
  {
    ViewMembers(records, organizationId, documentId, id);
    if k :| 0 <= k < |records| && records[k] == Record(organizationId, documentId, id, row) {
      assert IndexOf(records, organizationId, id) == k;
    }
  }

  lemma SameRecordsSameView<T>(a: seq<Record<T>>, b: seq<Record<T>>, organizationId: Id, documentId: Id)
    requires Unique(a) && Unique(b)
    requires forall id, row :: Record(organizationId, documentId, id, row) in a <==> Record(organizationId, documentId, id, row) in b
    ensures View(a, organizationId, documentId) == View(b, organizationId, documentId)
  {
    var x, y := View(a, organizationId, documentId), View(b, organizationId, documentId);
    forall id
      ensures id in x <==> id in y
      ensures id in x ==> x[id] == y[id]
    {
      if id in x {
        UniqueView(a, organizationId, documentId, id, x[id]);
        UniqueView(b, organizationId, documentId, id, x[id]);
      }
      if id in y {
        UniqueView(a, organizationId, documentId, id, y[id]);
        UniqueView(b, organizationId, documentId, id, y[id]);
      }
    }
  }

  /** New rows of one document, with ids that nothing in the organization has. */
  ghost predicate NewRows<T>(records: seq<Record<T>>, organizationId: Id, documentId: Id, replacement: seq<Record<T>>) {
    && Unique(replacement)
    && (forall k :: 0 <= k < |replacement| ==>
          replacement[k].organizationId == organizationId && replacement[k].documentId == documentId
          && IndexOf(records, organizationId, replacement[k].id) < 0)
  }

  lemma ReplacedIsUnique<T>(records: seq<Record<T>>, organizationId: Id, documentId: Id, replacement: seq<Record<T>>)
    requires Unique(records) && NewRows(records, organizationId, documentId, replacement)
    ensures Unique(Without(records, organizationId, documentId) + replacement)
  {
    var rest := Without(records, organizationId, documentId);
    WithoutIsUnique(records, organizationId, documentId);
    forall i, j | 0 <= i < |rest| && 0 <= j < |replacement|
      ensures !Matches(replacement[j], rest[i].organizationId, rest[i].id)
    {
      WithoutMember(records, organizationId, documentId, rest[i]);
      assert rest[i] in records;
    }
  }

  /** Replacing all rows of a document shows as the new rows in its own view and not at all in any other. */
  lemma ReplacedView<T>(records: seq<Record<T>>, organizationId: Id, documentId: Id, replacement: seq<Record<T>>, org: Id, doc: Id)
    requires Unique(records) && NewRows(records, organizationId, documentId, replacement)
    ensures View(Without(records, organizationId, documentId) + replacement, org, doc)
            == if org == organizationId && doc == documentId then View(replacement, org, doc) else View(records, org, doc)
  {
    var after := Without(records, organizationId, documentId) + replacement;
    ReplacedIsUnique(records, organizationId, documentId, replacement);
    forall id, row
      ensures Record(org, doc, id, row) in Without(records, organizationId, documentId)
              <==> Record(org, doc, id, row) in records && (org != organizationId || doc != documentId)
    {
      WithoutMember(records, organizationId, documentId, Record(org, doc, id, row));
    }
    if org == organizationId && doc == documentId {
      SameRecordsSameView(after, replacement, org, doc);
    } else {
      SameRecordsSameView(after, records, org, doc);
    }
  }

  /* ---- listings ---- */

  /** Generated ids never repeat inside an organization. */
  ghost predicate Unique<T>(records: seq<Record<T>>) {
    forall i, j :: 0 <= i < j < |records| ==> !Matches(records[j], records[i].organizationId, records[i].id)
  }

  lemma UniqueSurvives<T>(records: seq<Record<T>>, organizationId: Id, id: Id, updated: Result<T>)
    requires Unique(records)
    ensures Unique(Overwritten(records, organizationId, id, updated))
  {
    var next := Overwritten(records, organizationId, id, updated);
    assert forall j :: 0 <= j < |next| ==> next[j].organizationId == records[j].organizationId && next[j].id == records[j].id;
  }

  /** The listed rows are rows of the document, as they are stored, and none comes twice. */
  ghost predicate ListsSome<T>(listing: seq<Record<T>>, view: map<Id, T>) {
    && (forall k :: 0 <= k < |listing| ==> listing[k].id in view && view[listing[k].id] == listing[k].row)
    && (forall j, k :: 0 <= j < k < |listing| ==> listing[j].id != listing[k].id)
  }

  /** A listing shows each row of the document once. */
  ghost predicate Lists<T>(listing: seq<Record<T>>, view: map<Id, T>) {
    ListsSome(listing, view) && forall id :: id in view ==> exists k :: 0 <= k < |listing| && listing[k].id == id
  }

  method ListByDocument<T>(records: seq<Record<T>>, organizationId: Id, documentId: Id) returns (listing: seq<Record<T>>)
    requires Unique(records)
    ensures Lists(listing, View(records, organizationId, documentId))
  {
    listing := [];
    ghost var at: seq<nat> := [];
    for i := 0 to |records|
      invariant |at| == |listing|
      invariant forall k :: 0 <= k < |at| ==> at[k] < i && listing[k] == records[at[k]]
      invariant forall j, k :: 0 <= j < k < |at| ==> at[j] < at[k]
      invariant forall k :: 0 <= k < |at| ==> listing[k].organizationId == organizationId && listing[k].documentId == documentId
      invariant forall h :: 0 <= h < i && records[h].organizationId == organizationId && records[h].documentId == documentId ==>
                              exists k :: 0 <= k < |at| && at[k] == h
    {
      if records[i].organizationId == organizationId && records[i].documentId == documentId {
        ghost var before := at;
        listing, at := listing + [records[i]], at + [i];
        assert forall k :: 0 <= k < |before| ==> at[k] == before[k];
        assert at[|before|] == i;
      }
    }
    ListingListsSome(records, organizationId, documentId, listing, at);
    ListingLists(records, organizationId, documentId, listing, at);
  }

  lemma ListingListsSome<T>(records: seq<Record<T>>, organizationId: Id, documentId: Id, listing: seq<Record<T>>, at: seq<nat>)
    requires Unique(records) && |at| == |listing|
    requires forall k :: 0 <= k < |at| ==> at[k] < |records| && listing[k] == records[at[k]]
    requires forall j, k :: 0 <= j < k < |at| ==> at[j] < at[k]
    requires forall k :: 0 <= k < |at| ==> listing[k].organizationId == organizationId && listing[k].documentId == documentId
    ensures ListsSome(listing, View(records, organizationId, documentId))
  {
    var view := View(records, organizationId, documentId);
    forall k | 0 <= k < |listing|
      ensures listing[k].id in view && view[listing[k].id] == listing[k].row
    {
      assert IndexOf(records, organizationId, listing[k].id) == at[k];
      ViewMembers(records, organizationId, documentId, listing[k].id);
    }
    forall j, k | 0 <= j < k < |listing|
      ensures listing[j].id != listing[k].id
    {
      assert at[j] < at[k];
    }
  }

  lemma ListingLists<T>(records: seq<Record<T>>, organizationId: Id, documentId: Id, listing: seq<Record<T>>, at: seq<nat>)
    requires Unique(records) && |at| == |listing|
    requires forall k :: 0 <= k < |at| ==> at[k] < |records| && listing[k] == records[at[k]]
    requires ListsSome(listing, View(records, organizationId, documentId))
    requires forall h :: 0 <= h < |records| && records[h].organizationId == organizationId && records[h].documentId == documentId ==>
                           exists k :: 0 <= k < |at| && at[k] == h
    ensures Lists(listing, View(records, organizationId, documentId))
  {
    var view := View(records, organizationId, documentId);
    forall id | id in view
      ensures exists k :: 0 <= k < |listing| && listing[k].id == id
    {
      ViewMembers(records, organizationId, documentId, id);
      var h := IndexOf(records, organizationId, id);
      var k :| 0 <= k < |at| && at[k] == h;
      assert listing[k].id == id;
    }
  }
}
