/** Immutable object storage and the sweep that deletes old objects nothing refers to. */
module OrphanSweep {
  import opened Results
  import opened Texts
  import opened ObjectKeys

  datatype StoredObject = StoredObject(key: Text, digest: Text, storedAt: int)

  /** A row of some table that names an object. */
  datatype Reference = Reference(organizationId: Text, objectKey: Text)

  /** The tables the sweep asks, in its order: revisions, artifacts, completed fields. */
  datatype References = References(revisions: seq<Reference>, artifacts: seq<Reference>, fields: seq<Reference>)

  predicate IsReferenced(references: References, organizationId: Text, key: Text) {
    var r := Reference(organizationId, key);
    r in references.revisions || r in references.artifacts || r in references.fields
  }

  ghost predicate DistinctKeys(objects: seq<StoredObject>) {
    forall i, j :: 0 <= i < j < |objects| ==> objects[i].key != objects[j].key
  }

  /** The storage keeps only safe keys, each once. */
  ghost predicate IsSound(objects: seq<StoredObject>) {
    DistinctKeys(objects) && forall i :: 0 <= i < |objects| ==> IsSafe(objects[i].key)
  }

  /** The objects a condition does not hit, in their order. */
  ghost function Without(objects: seq<StoredObject>, hit: StoredObject -> bool): seq<StoredObject> {
    if objects == [] then []
    else Without(objects[..|objects| - 1], hit) + if hit(objects[|objects| - 1]) then [] else [objects[|objects| - 1]]
  }

  function HasKey(key: Text): StoredObject -> bool {
    (o: StoredObject) => o.key == key
  }

  lemma {:induction false} WithoutHolds(objects: seq<StoredObject>, hit: StoredObject -> bool)
    ensures forall o :: o in Without(objects, hit) <==> o in objects && !hit(o)
    ensures |Without(objects, hit)| <= |objects|
  {
    if objects != [] {
      WithoutHolds(objects[..|objects| - 1], hit);
      assert objects == objects[..|objects| - 1] + [objects[|objects| - 1]];
    }
  }

  lemma {:induction false} WithoutSame(objects: seq<StoredObject>, a: StoredObject -> bool, b: StoredObject -> bool)
    requires forall o :: o in objects ==> (a(o) <==> b(o))
    ensures Without(objects, a) == Without(objects, b)
  {
    if objects != [] {
      assert objects[|objects| - 1] in objects;
      assert forall o :: o in objects[..|objects| - 1] ==> o in objects;
      WithoutSame(objects[..|objects| - 1], a, b);
    }
  }

  lemma {:induction false} WithoutTwice(objects: seq<StoredObject>, a: StoredObject -> bool, b: StoredObject -> bool, both: StoredObject -> bool)
    requires forall o :: o in objects ==> (both(o) <==> a(o) || b(o))
    ensures Without(Without(objects, a), b) == Without(objects, both)
  {
    if objects != [] {
      var rest, last := objects[..|objects| - 1], objects[|objects| - 1];
      assert last in objects;
      assert forall o :: o in rest ==> o in objects;
      WithoutTwice(rest, a, b, both);
      var kept := Without(rest, a);
      if !a(last) {
        assert (kept + [last])[..|kept|] == kept;
      } else {
        assert kept + [] == kept;
      }
    }
  }

  lemma {:induction false} WithoutNothing(objects: seq<StoredObject>, hit: StoredObject -> bool)
    requires forall o :: o in objects ==> !hit(o)
    ensures Without(objects, hit) == objects
  {
    if objects != [] {
      var rest, last := objects[..|objects| - 1], objects[|objects| - 1];
      assert objects == rest + [last];
      forall o | o in rest
        ensures !hit(o)
      {
        assert o in objects;
      }
      WithoutNothing(rest, hit);
      assert last in objects;
    }
  }

  lemma WithoutIsSound(objects: seq<StoredObject>, hit: StoredObject -> bool)
    requires IsSound(objects)
    ensures IsSound(Without(objects, hit))
  {
    WithoutStaysDistinct(objects, hit);
    WithoutHolds(objects, hit);
    var kept := Without(objects, hit);
    assert forall i :: 0 <= i < |kept| ==> kept[i] in kept && kept[i] in objects;
  }

  /** Deleting a key that is there removes exactly one object. */
  lemma {:induction false} WithoutOne(objects: seq<StoredObject>, key: Text)
    requires DistinctKeys(objects) && exists o :: o in objects && o.key == key
    ensures |Without(objects, HasKey(key))| == |objects| - 1
  {
    var rest, last := objects[..|objects| - 1], objects[|objects| - 1];
    if last.key == key {
      assert forall o :: o in rest ==> o.key != key;
      WithoutNothing(rest, HasKey(key));
    } else {
      var o :| o in objects && o.key == key;
      assert o in rest;
      WithoutOne(rest, key);
    }
  }

  class ObjectStorage {
    var objects: seq<StoredObject>

    constructor ()
      ensures objects == []
    {
      objects := [];
    }

    /** Stores under a new key; the same content again is fine, other content under a used key is refused.
        Nothing that is stored ever changes. */
    method PutObject(organizationId: Text, relativeKey: Text, digest: Text, expected: Option<Text>, now: int) returns (r: Result<Text>)
      requires IsSound(objects)
      modifies this
      ensures IsSound(objects)
      ensures r.Err? ==> objects == old(objects)
      ensures r.Ok? ==> r == TenantObjectKey(organizationId, relativeKey)
      ensures r.Ok? ==> exists o :: o in objects && o.key == r.value && o.digest == digest
      ensures r.Ok? ==> objects == old(objects) || objects == old(objects) + [StoredObject(r.value, digest, now)]
      ensures r.Ok? <==> && TenantObjectKey(organizationId, relativeKey).Ok?
                         && (expected.Some? ==> expected.value == digest)
                         && forall o :: o in old(objects) && o.key == TenantObjectKey(organizationId, relativeKey).value ==> o.digest == digest
    {
      var key :- TenantObjectKey(organizationId, relativeKey);
      if expected.Some? && expected.value != digest {
        return Err(ObjectDigestMismatch);
      }
      TenantKeysAreStable(organizationId, relativeKey);
      var i := FindKey(key);
      if i >= 0 {
        assert objects[i] in objects;
        return if objects[i].digest != digest then Err(ImmutableKeyConflict) else Ok(key);
      }
      objects := objects + [StoredObject(key, digest, now)];
      assert objects[|objects| - 1] in objects;
      return Ok(key);
    }

    /** Map.prototype.get, as a position. */
    method FindKey(key: Text) returns (index: int)
      requires DistinctKeys(objects)
      ensures -1 <= index < |objects|
      ensures forall j :: 0 <= j < |objects| ==> (objects[j].key == key <==> j == index)
    {
      for i := 0 to |objects|
        invariant forall j :: 0 <= j < i ==> objects[j].key != key
      {
        if objects[i].key == key {
          return i;
        }
      }
      return -1;
    }

    method DeleteObject(organizationId: Text, key: Text) returns (r: Result<()>)
      requires IsSound(objects)
      modifies this
      ensures IsSound(objects)
      ensures r.Ok? <==> AssertTenantObjectKey(organizationId, key).Ok?
      ensures objects == if r.Ok? then Without(old(objects), HasKey(key)) else old(objects)
    {
      var checked :- AssertTenantObjectKey(organizationId, key);
      var kept: seq<StoredObject> := [];
      for i := 0 to |objects|
        invariant objects == old(objects)
        invariant kept == Without(objects[..i], HasKey(checked))
      {
        assert objects[..i + 1][..i] == objects[..i];
        if objects[i].key != checked {
          kept := kept + [objects[i]];
        }
      }
      assert objects[..|objects|] == objects;
      WithoutIsSound(objects, HasKey(checked));
      objects := kept;
      return Ok(());
    }

    /** The keys under a prefix whose objects are old enough, in the order they were stored. */
    method ListKeys(organizationId: Text, prefix: Text, olderThan: int) returns (r: Result<seq<Text>>)
      requires IsSound(objects)
      ensures r.Ok? <==> TenantObjectKey(organizationId, prefix).Ok?
      ensures r.Ok? ==> ListsKeys(r.value, objects, organizationId, prefix, olderThan)
    {
      var full :- TenantObjectKey(organizationId, prefix);
      var keys: seq<Text> := [];
      for i := 0 to |objects|
        invariant ListsKeys(keys, objects[..i], organizationId, prefix, olderThan)
      {
        assert objects[..i + 1] == objects[..i] + [objects[i]];
        assert forall j :: 0 <= j < i ==> objects[..i][j].key != objects[i].key;
        ListsOneMore(keys, objects[..i], objects[i], organizationId, prefix, olderThan);
        if StartsWith(objects[i].key, full) && objects[i].storedAt <= olderThan {
          keys := keys + [objects[i].key];
        }
      }
      assert objects[..|objects|] == objects;
      return Ok(keys);
    }
  }

  /** The listed keys, each once. */
  ghost predicate ListsKeys(keys: seq<Text>, objects: seq<StoredObject>, organizationId: Text, prefix: Text, olderThan: int) {
    && (forall key :: key in keys <==> exists o :: o in objects && o.key == key && IsListed(organizationId, prefix, olderThan, o))
    && (forall i, j :: 0 <= i < j < |keys| ==> keys[i] != keys[j])
  }

  lemma ListsOneMore(keys: seq<Text>, objects: seq<StoredObject>, o: StoredObject, organizationId: Text, prefix: Text, olderThan: int)
    requires ListsKeys(keys, objects, organizationId, prefix, olderThan)
    requires forall j :: 0 <= j < |objects| ==> objects[j].key != o.key
    ensures ListsKeys(if IsListed(organizationId, prefix, olderThan, o) then keys + [o.key] else keys, objects + [o], organizationId, prefix, olderThan)
  {
    assert forall x :: x in objects + [o] <==> x in objects || x == o;
    assert o.key !in keys;
    assert forall i :: 0 <= i < |keys| ==> keys[i] in keys;
  }

  predicate IsListed(organizationId: Text, prefix: Text, olderThan: int, o: StoredObject) {
    var full := TenantObjectKey(organizationId, prefix);
    full.Ok? && StartsWith(o.key, full.value) && o.storedAt <= olderThan
  }

  /** An old object of the tenant under the prefix that no table refers to. */
  predicate IsOrphan(organizationId: Text, prefix: Text, olderThan: int, references: References, o: StoredObject) {
    IsListed(organizationId, prefix, olderThan, o) && !IsReferenced(references, organizationId, o.key)
  }

  predicate IsOrphanUnder(organizationId: Text, prefixes: seq<Text>, olderThan: int, references: References, o: StoredObject) {
    exists p :: 0 <= p < |prefixes| && IsOrphan(organizationId, prefixes[p], olderThan, references, o)
  }

  function OrphanOf(organizationId: Text, prefix: Text, olderThan: int, references: References): StoredObject -> bool {
    (o: StoredObject) => IsOrphan(organizationId, prefix, olderThan, references, o)
  }

  function OrphanUnder(organizationId: Text, prefixes: seq<Text>, olderThan: int, references: References): StoredObject -> bool {
    (o: StoredObject) => IsOrphanUnder(organizationId, prefixes, olderThan, references, o)
  }

  /** The unreferenced objects among some keys. */
  function UnreferencedAmong(keys: seq<Text>, references: References, organizationId: Text): StoredObject -> bool {
    (o: StoredObject) => o.key in keys && !IsReferenced(references, organizationId, o.key)
  }

  lemma ListedKeyIsOwn(objects: seq<StoredObject>, organizationId: Text, prefix: Text, olderThan: int, key: Text)
    requires IsSound(objects) && exists o :: o in objects && o.key == key && IsListed(organizationId, prefix, olderThan, o)
    ensures AssertTenantObjectKey(organizationId, key).Ok?
  {
    var full := TenantObjectKey(organizationId, prefix).value;
    TenantKeysAreStable(organizationId, prefix);
    var own := TenantPrefix(organizationId);
    assert key[..|own|] == key[..|full|][..|own|] == full[..|own|] == own;
  }

  lemma OneKeyFurther(objects: seq<StoredObject>, keys: seq<Text>, k: nat, references: References, organizationId: Text)
    requires DistinctKeys(objects) && k < |keys| && exists o :: o in objects && o.key == keys[k]
    requires forall i, j :: 0 <= i < j < |keys| ==> keys[i] != keys[j]
    ensures var so := Without(objects, UnreferencedAmong(keys[..k], references, organizationId));
            var next := Without(objects, UnreferencedAmong(keys[..k + 1], references, organizationId));
            if IsReferenced(references, organizationId, keys[k]) then next == so
            else next == Without(so, HasKey(keys[k])) && |next| == |so| - 1
  {
    var key, before, after := keys[k], UnreferencedAmong(keys[..k], references, organizationId), UnreferencedAmong(keys[..k + 1], references, organizationId);
    assert keys[..k + 1] == keys[..k] + [key];
    if IsReferenced(references, organizationId, key) {
      WithoutSame(objects, before, after);
    } else {
      var so := Without(objects, before);
      WithoutTwice(objects, before, HasKey(key), after);
      WithoutHolds(objects, before);
      WithoutStaysDistinct(objects, before);
      WithoutOne(so, key);
    }
  }

  lemma {:induction false} WithoutStaysDistinct(objects: seq<StoredObject>, hit: StoredObject -> bool)
    requires DistinctKeys(objects)
    ensures DistinctKeys(Without(objects, hit))
  {
    if objects != [] {
      var rest := objects[..|objects| - 1];
      WithoutStaysDistinct(rest, hit);
      WithoutHolds(rest, hit);
      var kept := Without(rest, hit);
      assert forall i :: 0 <= i < |kept| ==> kept[i] in kept && kept[i] in rest;
    }
  }

  /** The inner loop of the sweep: one prefix. */
  method SweepPrefix(storage: ObjectStorage, organizationId: Text, prefix: Text, olderThan: int, references: References) returns (r: Result<nat>)
    requires IsSound(storage.objects)
    modifies storage
    ensures IsSound(storage.objects)
    ensures r.Ok? <==> TenantObjectKey(organizationId, prefix).Ok?
    ensures r.Err? ==> storage.objects == old(storage.objects)
    ensures r.Ok? ==> storage.objects == Without(old(storage.objects), OrphanOf(organizationId, prefix, olderThan, references))
    ensures r.Ok? ==> r.value == |old(storage.objects)| - |storage.objects|
  {
    ghost var before := storage.objects;
    var listed := storage.ListKeys(organizationId, prefix, olderThan);
    if listed.Err? {
      return Err(listed.failure);
    }
    var keys := listed.value;
    var deleted := 0;
    WithoutNothing(before, UnreferencedAmong(keys[..0], references, organizationId));
    for k := 0 to |keys|
      invariant IsSound(storage.objects)
      invariant storage.objects == Without(before, UnreferencedAmong(keys[..k], references, organizationId))
      invariant deleted == |before| - |storage.objects|
    {
      assert keys[k] in keys;
      ListedKeyIsOwn(before, organizationId, prefix, olderThan, keys[k]);
      OneKeyFurther(before, keys, k, references, organizationId);
      if !IsReferenced(references, organizationId, keys[k]) {
        var gone := storage.DeleteObject(organizationId, keys[k]);
        deleted := deleted + 1;
      }
    }
    assert keys[..|keys|] == keys;
    SameOrphans(before, keys, organizationId, prefix, olderThan, references);
    return Ok(deleted);
  }

  lemma SameOrphans(objects: seq<StoredObject>, keys: seq<Text>, organizationId: Text, prefix: Text, olderThan: int, references: References)
    requires DistinctKeys(objects)
    requires forall key :: key in keys <==> exists o :: o in objects && o.key == key && IsListed(organizationId, prefix, olderThan, o)
    ensures Without(objects, UnreferencedAmong(keys, references, organizationId))
            == Without(objects, OrphanOf(organizationId, prefix, olderThan, references))
  {
    forall o | o in objects
      ensures o.key in keys <==> IsListed(organizationId, prefix, olderThan, o)
    {
    }
    WithoutSame(objects, UnreferencedAmong(keys, references, organizationId), OrphanOf(organizationId, prefix, olderThan, references));
  }

  ghost predicate PrefixesFit(organizationId: Text, prefixes: seq<Text>, n: nat)
    requires n <= |prefixes|
  {
    forall q :: 0 <= q < n ==> TenantObjectKey(organizationId, prefixes[q]).Ok?
  }

  /** cleanupOrphanedObjects, with nobody storing or referring to anything meanwhile. When it finishes it
      has deleted exactly the orphans under the prefixes and counted them; if a prefix is refused it stops,
      and what it deleted by then were orphans too. */
  method CleanupOrphanedObjects(storage: ObjectStorage, organizationId: Text, prefixes: seq<Text>, olderThan: int, references: References)
    returns (r: Result<nat>)
    requires IsSound(storage.objects)
    modifies storage
    ensures IsSound(storage.objects)
    ensures r.Ok? <==> PrefixesFit(organizationId, prefixes, |prefixes|)
    ensures r.Ok? ==> storage.objects == Without(old(storage.objects), OrphanUnder(organizationId, prefixes, olderThan, references))
    ensures r.Ok? ==> r.value == |old(storage.objects)| - |storage.objects|
    ensures OnlyOrphansGone(old(storage.objects), storage.objects, organizationId, prefixes, olderThan, references)
  {
    ghost var before := storage.objects;
    var deleted := 0;
    WithoutNothing(before, OrphanUnder(organizationId, prefixes[..0], olderThan, references));
    for p := 0 to |prefixes|
      invariant IsSound(storage.objects)
      invariant PrefixesFit(organizationId, prefixes, p)
      invariant storage.objects == Without(before, OrphanUnder(organizationId, prefixes[..p], olderThan, references))
      invariant deleted == |before| - |storage.objects|
    {
      OnePrefixFurther(before, organizationId, prefixes, p, olderThan, references);
      GoneAreOrphans(before, organizationId, prefixes, p, olderThan, references);
      var swept := SweepPrefix(storage, organizationId, prefixes[p], olderThan, references);
      if swept.Err? {
        return swept;
      }
      deleted := deleted + swept.value;
    }
    assert prefixes[..|prefixes|] == prefixes;
    GoneAreOrphans(before, organizationId, prefixes, |prefixes|, olderThan, references);
    return Ok(deleted);
  }

  /** Nothing new appears, and what is gone was an orphan under one of the prefixes. */
  ghost predicate OnlyOrphansGone(before: seq<StoredObject>, after: seq<StoredObject>, organizationId: Text, prefixes: seq<Text>, olderThan: int,
                                  references: References)
  {
    && (forall o :: o in after ==> o in before)
    && (forall o :: o in before && o !in after ==> IsOrphanUnder(organizationId, prefixes, olderThan, references, o))
  }

  lemma GoneAreOrphans(objects: seq<StoredObject>, organizationId: Text, prefixes: seq<Text>, p: nat, olderThan: int, references: References)
    requires p <= |prefixes|
    ensures OnlyOrphansGone(objects, Without(objects, OrphanUnder(organizationId, prefixes[..p], olderThan, references)),
                            organizationId, prefixes, olderThan, references)
  {
    WithoutHolds(objects, OrphanUnder(organizationId, prefixes[..p], olderThan, references));
    FewerPrefixes(organizationId, prefixes, p, olderThan, references);
  }

  lemma FewerPrefixes(organizationId: Text, prefixes: seq<Text>, p: nat, olderThan: int, references: References)
    requires p <= |prefixes|
    ensures forall o :: IsOrphanUnder(organizationId, prefixes[..p], olderThan, references, o) ==>
                          IsOrphanUnder(organizationId, prefixes, olderThan, references, o)
  {
    forall o | IsOrphanUnder(organizationId, prefixes[..p], olderThan, references, o)
      ensures IsOrphanUnder(organizationId, prefixes, olderThan, references, o)
    {
      var q :| 0 <= q < |prefixes[..p]| && IsOrphan(organizationId, prefixes[..p][q], olderThan, references, o);
      assert prefixes[..p][q] == prefixes[q];
    }
  }

  lemma OnePrefixFurther(objects: seq<StoredObject>, organizationId: Text, prefixes: seq<Text>, p: nat, olderThan: int, references: References)
    requires p < |prefixes|
    ensures Without(Without(objects, OrphanUnder(organizationId, prefixes[..p], olderThan, references)),
                    OrphanOf(organizationId, prefixes[p], olderThan, references))
            == Without(objects, OrphanUnder(organizationId, prefixes[..p + 1], olderThan, references))
  {
    forall o
      ensures IsOrphanUnder(organizationId, prefixes[..p + 1], olderThan, references, o)
              <==> IsOrphanUnder(organizationId, prefixes[..p], olderThan, references, o) || IsOrphan(organizationId, prefixes[p], olderThan, references, o)
    {
      OrphanUnderOneMore(organizationId, prefixes, p, olderThan, references, o);
    }
    WithoutTwice(objects, OrphanUnder(organizationId, prefixes[..p], olderThan, references),
                 OrphanOf(organizationId, prefixes[p], olderThan, references),
                 OrphanUnder(organizationId, prefixes[..p + 1], olderThan, references));
  }

  lemma OrphanUnderOneMore(organizationId: Text, prefixes: seq<Text>, p: nat, olderThan: int, references: References, o: StoredObject)
    requires p < |prefixes|
    ensures IsOrphanUnder(organizationId, prefixes[..p + 1], olderThan, references, o)
            <==> IsOrphanUnder(organizationId, prefixes[..p], olderThan, references, o) || IsOrphan(organizationId, prefixes[p], olderThan, references, o)
  {
    var more := prefixes[..p + 1];
    assert more[p] == prefixes[p];
    assert forall q :: 0 <= q < p ==> more[q] == prefixes[..p][q];
  }

  /** The sweep keeps every referenced object and every object of another organization. */
  lemma SweepSparesTheRest(objects: seq<StoredObject>, organizationId: Text, prefixes: seq<Text>, olderThan: int, references: References, o: StoredObject)
    requires o in objects
    requires IsReferenced(references, organizationId, o.key)
             || (exists other :: IsOpaqueId(other) && other != organizationId && StartsWith(o.key, TenantPrefix(other)))
             || o.storedAt > olderThan
    ensures o in Without(objects, OrphanUnder(organizationId, prefixes, olderThan, references))
  {
    WithoutHolds(objects, OrphanUnder(organizationId, prefixes, olderThan, references));
    if IsOrphanUnder(organizationId, prefixes, olderThan, references, o) {
      var p :| 0 <= p < |prefixes| && IsOrphan(organizationId, prefixes[p], olderThan, references, o);
      OrphanIsOwn(organizationId, prefixes[p], olderThan, references, o);
      var other :| IsOpaqueId(other) && other != organizationId && StartsWith(o.key, TenantPrefix(other));
      TenantsShareNoKey(organizationId, other, o.key);
      assert false;
    }
  }

  lemma OrphanIsOwn(organizationId: Text, prefix: Text, olderThan: int, references: References, o: StoredObject)
    requires IsOrphan(organizationId, prefix, olderThan, references, o)
    ensures IsOpaqueId(organizationId) && StartsWith(o.key, TenantPrefix(organizationId))
  {
    var full, own := TenantObjectKey(organizationId, prefix).value, TenantPrefix(organizationId);
    TenantKeysAreStable(organizationId, prefix);
    assert o.key[..|own|] == o.key[..|full|][..|own|] == full[..|own|] == own;
  }

  /** A row of one of the three tables names the object. */
  ghost predicate IsNamed(rows: seq<Reference>, organizationId: Text, key: Text) {
    exists k :: 0 <= k < |rows| && rows[k].organizationId == organizationId && rows[k].objectKey == key
  }

  /** The sweep deletes an object exactly when its key is under one of the tenant's prefixes, it is old enough,
      and neither a revision nor an artifact nor a completed field of the organization names it. */
  lemma SweptExactly(objects: seq<StoredObject>, organizationId: Text, prefixes: seq<Text>, olderThan: int, references: References, o: StoredObject)
    requires o in objects
    ensures o !in Without(objects, OrphanUnder(organizationId, prefixes, olderThan, references))
            <==> && (exists p :: 0 <= p < |prefixes| && IsUnder(organizationId, prefixes[p], o.key))
                 && o.storedAt <= olderThan
                 && !IsNamed(references.revisions, organizationId, o.key)
                 && !IsNamed(references.artifacts, organizationId, o.key)
                 && !IsNamed(references.fields, organizationId, o.key)
  {
    WithoutHolds(objects, OrphanUnder(organizationId, prefixes, olderThan, references));
    NamedIsReferenced(references, organizationId, o.key);
    assert forall p :: 0 <= p < |prefixes| ==>
                         (IsOrphan(organizationId, prefixes[p], olderThan, references, o)
                          <==> IsUnder(organizationId, prefixes[p], o.key) && o.storedAt <= olderThan && !IsReferenced(references, organizationId, o.key));
  }

  /** The key starts with the key that the prefix stands for. */
  ghost predicate IsUnder(organizationId: Text, prefix: Text, key: Text) {
    var full := TenantObjectKey(organizationId, prefix);
    full.Ok? && |full.value| <= |key| && forall k :: 0 <= k < |full.value| ==> key[k] == full.value[k]
  }

  lemma NamedIsReferenced(references: References, organizationId: Text, key: Text)
    ensures IsReferenced(references, organizationId, key)
            <==> IsNamed(references.revisions, organizationId, key) || IsNamed(references.artifacts, organizationId, key)
                 || IsNamed(references.fields, organizationId, key)
  {
    InRows(references.revisions, organizationId, key);
    InRows(references.artifacts, organizationId, key);
    InRows(references.fields, organizationId, key);
  }

  lemma InRows(rows: seq<Reference>, organizationId: Text, key: Text)
    ensures Reference(organizationId, key) in rows <==> IsNamed(rows, organizationId, key)
  {
  }
}
