/** Tenant-scoped object keys: which keys are safe, and which organization a key belongs to. */
module ObjectKeys {
  import opened Results
  import opened Texts

  const SLASH: CodeUnit := 47
  const BACKSLASH: CodeUnit := 92
  const DASH: CodeUnit := 45
  const DOT: CodeUnit := 46

  const ORG: Text := [111, 114, 103, 47]

  predicate IsHex(c: CodeUnit) {
    IsDigit(c) || 97 <= c <= 102 || 65 <= c <= 70
  }

  /** The pattern of opaque identifiers: a UUID of version 1 to 8. */
  predicate IsOpaqueId(id: Text) {
    && |id| == 36
    && (forall i :: 0 <= i < 36 ==> if i == 8 || i == 13 || i == 18 || i == 23 then id[i] == DASH else IsHex(id[i]))
    && 49 <= id[14] <= 56
    && (id[19] == 56 || id[19] == 57 || id[19] == 97 || id[19] == 98 || id[19] == 65 || id[19] == 66)
  }

  function TenantPrefix(organizationId: Text): Text {
    ORG + organizationId + [SLASH]
  }

  /** String.prototype.split by the slash. */
  function Split(text: Text): (segments: seq<Text>)
    ensures segments != []
  {
    if text == [] then [[]]
    else if text[0] == SLASH then [[]] + Split(text[1..])
    else
      var rest := Split(text[1..]);
      [[text[0]] + rest[0]] + rest[1..]
  }

  predicate IsPlainSegment(segment: Text) {
    segment != [] && segment != [DOT] && segment != [DOT, DOT]
  }

  function WithoutTrailingSlash(key: Text): Text {
    if key != [] && key[|key| - 1] == SLASH then key[..|key| - 1] else key
  }

  /** assertSafeObjectKeySegments. */
  predicate IsSafe(key: Text) {
    var forCheck := WithoutTrailingSlash(key);
    && BACKSLASH !in key && 0 !in key
    && forCheck != [] && forCheck[0] != SLASH
    && forall i :: 0 <= i < |Split(forCheck)| ==> IsPlainSegment(Split(forCheck)[i])
  }

  function TrimSlashes(key: Text): Text {
    if key != [] && key[0] == SLASH then TrimSlashes(key[1..]) else key
  }

  function TenantObjectKey(organizationId: Text, relativeKey: Text): Result<Text> {
    if !IsOpaqueId(organizationId) then Err(InvalidOrganizationId)
    else
      var prefix, trimmed := TenantPrefix(organizationId), TrimSlashes(relativeKey);
      if !IsSafe(trimmed) then Err(ObjectKeyUnsafe)
      else if StartsWith(trimmed, ORG) then
        if StartsWith(trimmed, prefix) then Ok(trimmed) else Err(ObjectKeyForeignTenant)
      else if IsSafe(prefix + trimmed) then Ok(prefix + trimmed)
      else Err(ObjectKeyUnsafe)
  }

  function AssertTenantObjectKey(organizationId: Text, key: Text): Result<Text> {
    if !IsSafe(key) then Err(ObjectKeyUnsafe)
    else if !IsOpaqueId(organizationId) then Err(InvalidOrganizationId)
    else if !StartsWith(key, TenantPrefix(organizationId)) then Err(ObjectKeyForeignTenant)
    else Ok(key)
  }

  /** Every key made for a tenant passes the tenant's check, and making it again changes nothing. */
  lemma TenantKeysAreStable(organizationId: Text, relativeKey: Text)
    requires TenantObjectKey(organizationId, relativeKey).Ok?
    ensures var key := TenantObjectKey(organizationId, relativeKey).value;
            AssertTenantObjectKey(organizationId, key) == Ok(key) && TenantObjectKey(organizationId, key) == Ok(key)
  {
    var key := TenantObjectKey(organizationId, relativeKey).value;
    var prefix := TenantPrefix(organizationId);
    assert StartsWith(key, prefix) by {
      assert (prefix + TrimSlashes(relativeKey))[..|prefix|] == prefix;
    }
    PrefixStartsWithOrg(organizationId, key);
    assert key[0] == key[..|ORG|][0];
  }

  lemma PrefixStartsWithOrg(organizationId: Text, key: Text)
    requires StartsWith(key, TenantPrefix(organizationId))
    ensures StartsWith(key, ORG)
  {
    var prefix := TenantPrefix(organizationId);
    assert key[..|ORG|] == key[..|prefix|][..|ORG|] == prefix[..|ORG|] == ORG;
  }

  /** No key belongs to two organizations. */
  lemma TenantsShareNoKey(a: Text, b: Text, key: Text)
    requires IsOpaqueId(a) && IsOpaqueId(b)
    requires StartsWith(key, TenantPrefix(a)) && StartsWith(key, TenantPrefix(b))
    ensures a == b
  {
    var x, y := TenantPrefix(a), TenantPrefix(b);
    assert x == y;
    assert a == x[|ORG|..|ORG| + 36] && b == y[|ORG|..|ORG| + 36];
  }

  /* ---- which keys are safe ---- */

  /** The segments with a slash between each two. */
  function Join(segments: seq<Text>): Text
    requires segments != []
  {
    if |segments| == 1 then segments[0] else segments[0] + [SLASH] + Join(segments[1..])
  }

  lemma {:induction false} SplitWhole(segment: Text)
    requires SLASH !in segment
    ensures Split(segment) == [segment]
  {
    if segment != [] {
      SplitWhole(segment[1..]);
      assert [segment[0]] + segment[1..] == segment;
    }
  }

  lemma {:induction false} SplitAtSlash(segment: Text, rest: Text)
    requires SLASH !in segment
    ensures Split(segment + [SLASH] + rest) == [segment] + Split(rest)
  {
    var text := segment + [SLASH] + rest;
    if segment == [] {
      assert text[1..] == rest;
    } else {
      SplitAtSlash(segment[1..], rest);
      assert text[1..] == segment[1..] + [SLASH] + rest;
      assert [segment[0]] + segment[1..] == segment;
    }
  }

  /** Splitting undoes joining. */
  lemma {:induction false} SplitUndoesJoin(segments: seq<Text>)
    requires segments != [] && forall i :: 0 <= i < |segments| ==> SLASH !in segments[i]
    ensures Split(Join(segments)) == segments
  {
    if |segments| == 1 {
      SplitWhole(segments[0]);
      assert segments == [segments[0]];
    } else {
      SplitUndoesJoin(segments[1..]);
      SplitAtSlash(segments[0], Join(segments[1..]));
      assert segments == [segments[0]] + segments[1..];
    }
  }

  lemma JoinLonger(c: CodeUnit, segments: seq<Text>)
    requires segments != []
    ensures Join([[c] + segments[0]] + segments[1..]) == [c] + Join(segments)
  {
    var longer := [[c] + segments[0]] + segments[1..];
    assert longer[1..] == segments[1..];
    if |segments| > 1 {
      assert [c] + segments[0] + [SLASH] + Join(segments[1..]) == [c] + (segments[0] + [SLASH] + Join(segments[1..]));
    }
  }

  lemma JoinEmpty(segments: seq<Text>)
    requires segments != []
    ensures Join([[]] + segments) == [SLASH] + Join(segments)
  {
    assert ([[]] + segments)[1..] == segments;
    assert [] + [SLASH] + Join(segments) == [SLASH] + Join(segments);
  }

  ghost predicate NoSlashes(segments: seq<Text>) {
    forall i :: 0 <= i < |segments| ==> SLASH !in segments[i]
  }

  /** Joining undoes splitting, and no segment has a slash in it. */
  lemma {:induction false} JoinUndoesSplit(text: Text)
    ensures Join(Split(text)) == text && NoSlashes(Split(text))
  {
    if text != [] {
      var rest := Split(text[1..]);
      JoinUndoesSplit(text[1..]);
      assert text == [text[0]] + text[1..];
      if text[0] == SLASH {
        JoinEmpty(rest);
      } else {
        JoinLonger(text[0], rest);
      }
    }
  }

  /** A key is safe exactly when, but for one slash at its end, it is a path of segments that are neither
      empty nor a dot nor two dots, with no backslash and no zero in it. */
  lemma SafeExactly(key: Text)
    ensures var path := if key != [] && key[|key| - 1] == SLASH then key[..|key| - 1] else key;
            IsSafe(key)
            <==> && (forall i :: 0 <= i < |key| ==> key[i] != 92 && key[i] != 0)
                 && exists segments :: IsPath(segments, path)
  {
    var path := WithoutTrailingSlash(key);
    if IsSafe(key) {
      JoinUndoesSplit(path);
      assert IsPath(Split(path), path);
    }
    if segments :| IsPath(segments, path) {
      SplitUndoesJoin(segments);
      JoinStart(segments);
      assert IsPlainSegment(segments[0]);
    }
  }

  ghost predicate IsPath(segments: seq<Text>, key: Text) {
    && segments != [] && key == Join(segments)
    && (forall i :: 0 <= i < |segments| ==> SLASH !in segments[i])
    && (forall i :: 0 <= i < |segments| ==> segments[i] != [] && segments[i] != Ascii(".") && segments[i] != Ascii(".."))
  }

  lemma JoinStart(segments: seq<Text>)
    requires segments != [] && segments[0] != [] && SLASH !in segments[0]
    ensures Join(segments) != [] && Join(segments)[0] != SLASH
  {
    assert Join(segments)[0] == segments[0][0];
  }

  /* ---- which keys a tenant gets ---- */

  /** A safe key that names no organization is put under the tenant's own; slashes in front do not count. */
  lemma OwnKeys(organizationId: Text, relativeKey: Text)
    requires IsOpaqueId(organizationId) && IsSafe(relativeKey) && !StartsWith(relativeKey, Ascii("org/"))
    ensures TenantObjectKey(organizationId, relativeKey) == Ok(Ascii("org/") + organizationId + Ascii("/") + relativeKey)
    ensures TenantObjectKey(organizationId, [SLASH] + relativeKey) == TenantObjectKey(organizationId, relativeKey)
  {
    assert Ascii("org/") == ORG && Ascii("/") == [SLASH];
    PrefixedIsSafe(organizationId, relativeKey);
    SafeStart(relativeKey);
    assert ([SLASH] + relativeKey)[1..] == relativeKey;
  }

  lemma SafeStart(key: Text)
    requires IsSafe(key)
    ensures key != [] && key[0] != SLASH && TrimSlashes(key) == key
  {
  }

  lemma PrefixedIsSafe(organizationId: Text, key: Text)
    requires IsOpaqueId(organizationId) && IsSafe(key)
    ensures IsSafe(TenantPrefix(organizationId) + key)
  {
    var org: Text, full := [111, 114, 103], TenantPrefix(organizationId) + key;
    var path := WithoutTrailingSlash(key);
    SafeStart(key);
    assert WithoutTrailingSlash(full) == org + [SLASH] + (organizationId + [SLASH] + path);
    SplitAtSlash(organizationId, path);
    SplitAtSlash(org, organizationId + [SLASH] + path);
    NothingOdd(organizationId, key);
    PlainAfterTwo(org, organizationId, Split(path));
  }

  lemma NothingOdd(organizationId: Text, key: Text)
    requires IsOpaqueId(organizationId) && BACKSLASH !in key && 0 !in key
    ensures BACKSLASH !in TenantPrefix(organizationId) + key && 0 !in TenantPrefix(organizationId) + key
    ensures SLASH !in organizationId
  {
  }

  lemma PlainAfterTwo(a: Text, b: Text, segments: seq<Text>)
    requires |a| > 2 && |b| > 2 && forall i :: 0 <= i < |segments| ==> IsPlainSegment(segments[i])
    ensures var all := [a] + ([b] + segments); forall i :: 0 <= i < |all| ==> IsPlainSegment(all[i])
  {
  }

  /** A key under an organization is kept as it is for that organization and refused for any other. */
  lemma ForeignKeys(organizationId: Text, key: Text)
    requires IsOpaqueId(organizationId) && IsSafe(key) && StartsWith(key, Ascii("org/"))
    ensures TenantObjectKey(organizationId, key)
            == if StartsWith(key, Ascii("org/") + organizationId + Ascii("/")) then Ok(key) else Err(ObjectKeyForeignTenant)
  {
    assert Ascii("org/") == ORG && Ascii("/") == [SLASH];
    SafeStart(key);
  }
}
