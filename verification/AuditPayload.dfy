/** The check on audit payloads that writer and verifier share. */
module AuditPayload {
  import opened Texts
  import opened CanonicalJson
  import opened Canonicalizer

  const FORBIDDEN_SUBSTRINGS: seq<Text> := [
    Ascii("token"), Ascii("secret"), Ascii("password"), Ascii("cookie"), Ascii("authorization"), Ascii("bearer"),
    Ascii("apikey"), Ascii("csrftoken"), Ascii("sessiontoken"), Ascii("signatureimage"), Ascii("signaturebytes"),
    Ascii("pngbytes"), Ascii("pdfbytes"), Ascii("documentbytes"), Ascii("pointerstream"), Ascii("rawsignature")]

  const FORBIDDEN_EXACT: seq<Text> := [
    Ascii("email"), Ascii("name"), Ascii("phone"), Ascii("address"), Ascii("ssn"), Ascii("png"), Ascii("pdf"),
    Ascii("pointer"), Ascii("strokes"), Ascii("ink"), Ascii("raw")]

  const MAX_STRING_CHARS := 4096
  const MAX_DEPTH := 8
  const MAX_KEYS := 64

  predicate IsUpper(c: CodeUnit) {
    65 <= c <= 90
  }

  predicate IsAlphanumeric(c: CodeUnit) {
    IsDigit(c) || IsUpper(c) || 97 <= c <= 122
  }

  /** Letters and digits only, in lower case. */
  function NormalizeKey(key: Text): Text {
    if key == [] then []
    else if !IsAlphanumeric(key[0]) then NormalizeKey(key[1..])
    else [if IsUpper(key[0]) then key[0] + 32 else key[0]] + NormalizeKey(key[1..])
  }

  predicate IsForbiddenKey(key: Text) {
    var normalized := NormalizeKey(key);
    normalized in FORBIDDEN_EXACT || exists i :: 0 <= i < |FORBIDDEN_SUBSTRINGS| && Includes(normalized, FORBIDDEN_SUBSTRINGS[i])
  }

  /** Folding a key goes unit by unit: capitals turn small, small letters and digits stay, all else goes. */
  lemma {:induction false} KeysFold(a: Text, b: Text)
    ensures NormalizeKey(a + b) == NormalizeKey(a) + NormalizeKey(b)
  {
    if a == [] {
      assert a + b == b;
    } else {
      KeysFold(a[1..], b);
      assert (a + b)[1..] == a[1..] + b;
    }
  }

  lemma UnitFolds(c: CodeUnit)
    ensures 65 <= c <= 90 ==> NormalizeKey([c]) == [c + 32]
    ensures 97 <= c <= 122 || 48 <= c <= 57 ==> NormalizeKey([c]) == [c]
    ensures !(65 <= c <= 90 || 97 <= c <= 122 || 48 <= c <= 57) ==> NormalizeKey([c]) == []
  {
    assert [c][1..] == [];
    assert NormalizeKey([]) == [];
  }

  /** A key is forbidden whose folding is a forbidden name, or has a forbidden part anywhere in it. */
  lemma ForbiddenParts(key: Text, before: Text, after: Text, i: nat)
    requires i < |FORBIDDEN_SUBSTRINGS| && NormalizeKey(key) == before + FORBIDDEN_SUBSTRINGS[i] + after
    ensures IsForbiddenKey(key)
  {
    var part := FORBIDDEN_SUBSTRINGS[i];
    assert NormalizeKey(key)[|before|..|before| + |part|] == part;
    assert OccursAt(NormalizeKey(key), part, |before|);
  }

  predicate ApprovedValue(v: Js, depth: nat)
    decreases v
  {
    depth <= MAX_DEPTH
    && match v
       case Null => true
       case Bool(_) => true
       case Num(_) => true
       case Str(text) => |text| <= MAX_STRING_CHARS
       case Arr(items) => |items| <= MAX_KEYS && forall i :: 0 <= i < |items| ==> ApprovedValue(items[i], depth + 1)
       case Obj(members) => ApprovedPayload(members, depth + 1)
       case _ => false
  }

  /** assertApprovedAuditPayload. */
  predicate ApprovedPayload(members: seq<Member>, depth: nat)
    decreases members
  {
    && depth <= MAX_DEPTH
    && |members| <= MAX_KEYS
    && (forall i :: 0 <= i < |members| ==>
          && !IsForbiddenKey(members[i].key)
          && (members[i].value == Undefined || ApprovedValue(members[i].value, depth + 1)))
  }

  /** An approved payload can always be canonicalized, so appending it never fails later. */
  lemma {:induction false} ApprovedCanonicalizes(v: Js, depth: nat)
    requires ApprovedValue(v, depth)
    ensures Canon(v).Ok?
    decreases v
  {
    match v
    case Arr(items) => ApprovedItemsCanonicalize(items, depth + 1);
    case Obj(members) => ApprovedMembersCanonicalize(members, depth + 1);
    case _ =>
  }

  lemma {:induction false} ApprovedItemsCanonicalize(items: seq<Js>, depth: nat)
    requires forall i :: 0 <= i < |items| ==> ApprovedValue(items[i], depth)
    ensures CanonItems(items).Ok?
    decreases items
  {
    if items != [] {
      ApprovedCanonicalizes(items[0], depth);
      ApprovedItemsCanonicalize(items[1..], depth);
    }
  }

  lemma {:induction false} ApprovedMembersCanonicalize(members: seq<Member>, depth: nat)
    requires ApprovedPayload(members, depth)
    ensures CanonMembers(members).Ok? && Canon(Obj(members)).Ok?
    decreases members
  {
    CanonMembersAreForms(members);
    forall i | 0 <= i < |members| && members[i].value != Undefined
      ensures Canon(members[i].value).Ok?
    {
      ApprovedCanonicalizes(members[i].value, depth + 1);
    }
  }

  /* ---- exactly what is approved ---- */

  /** The value lies inside `v` at the level `d`, if `v` itself is at `depth`. An object takes two levels. */
  ghost predicate Occurs(v: Js, depth: nat, w: Js, d: nat)
    decreases v
  {
    || (w == v && d == depth)
    || match v
       case Arr(items) => exists i :: 0 <= i < |items| && Occurs(items[i], depth + 1, w, d)
       case Obj(members) => exists i :: 0 <= i < |members| && members[i].value != Undefined && Occurs(members[i].value, depth + 2, w, d)
       case _ => false
  }

  /** Nothing is wrong with the value by itself, whatever lies inside it. */
  ghost predicate FitsAlone(w: Js, d: nat) {
    d <= 8
    && match w
       case Str(text) => |text| <= 4096
       case Arr(items) => |items| <= 64
       case Obj(members) => d < 8 && |members| <= 64 && forall i :: 0 <= i < |members| ==> !IsForbiddenKey(members[i].key)
       case Undefined => false
       case NonFinite => false
       case Binary => false
       case Unsupported => false
       case _ => true
  }

  /** A value is approved exactly when nothing is wrong with anything that lies inside it. */
  lemma {:induction false} ApprovedExactly(v: Js, depth: nat)
    ensures ApprovedValue(v, depth) <==> forall w, d :: Occurs(v, depth, w, d) ==> FitsAlone(w, d)
    decreases v
  {
    if forall w, d :: Occurs(v, depth, w, d) ==> FitsAlone(w, d) {
      FitsIsApproved(v, depth);
    } else {
      var w, d :| Occurs(v, depth, w, d) && !FitsAlone(w, d);
      if ApprovedValue(v, depth) {
        ApprovedFits(v, depth, w, d);
      }
    }
  }

  lemma {:induction false} ApprovedFits(v: Js, depth: nat, w: Js, d: nat)
    requires ApprovedValue(v, depth) && Occurs(v, depth, w, d)
    ensures FitsAlone(w, d)
    decreases v
  {
    if w != v || d != depth {
      match v
      case Arr(items) =>
        var i :| 0 <= i < |items| && Occurs(items[i], depth + 1, w, d);
        ApprovedFits(items[i], depth + 1, w, d);
      case Obj(members) =>
        var i :| 0 <= i < |members| && members[i].value != Undefined && Occurs(members[i].value, depth + 2, w, d);
        ApprovedFits(members[i].value, depth + 2, w, d);
      case _ =>
    }
  }

  lemma {:induction false} FitsIsApproved(v: Js, depth: nat)
    requires forall w, d :: Occurs(v, depth, w, d) ==> FitsAlone(w, d)
    ensures ApprovedValue(v, depth)
    decreases v
  {
    assert Occurs(v, depth, v, depth) && FitsAlone(v, depth);
    match v
    case Arr(items) =>
      forall i | 0 <= i < |items|
        ensures ApprovedValue(items[i], depth + 1)
      {
        assert forall w, d :: Occurs(items[i], depth + 1, w, d) ==> Occurs(v, depth, w, d);
        FitsIsApproved(items[i], depth + 1);
      }
    case Obj(members) =>
      forall i | 0 <= i < |members| && members[i].value != Undefined
        ensures ApprovedValue(members[i].value, depth + 2)
      {
        assert forall w, d :: Occurs(members[i].value, depth + 2, w, d) ==> Occurs(v, depth, w, d);
        FitsIsApproved(members[i].value, depth + 2);
      }
    case _ =>
  }

  /** A payload is approved exactly when it has at most 64 members, none with a forbidden key, and nothing is
      wrong with anything in them, a level below. */
  lemma ApprovedPayloadExactly(members: seq<Member>)
    ensures ApprovedPayload(members, 0)
            <==> && |members| <= 64
                 && (forall i :: 0 <= i < |members| ==> !IsForbiddenKey(members[i].key))
                 && (forall i, w, d :: 0 <= i < |members| && members[i].value != Undefined && Occurs(members[i].value, 1, w, d) ==> FitsAlone(w, d))
  {
    forall i | 0 <= i < |members|
      ensures ApprovedValue(members[i].value, 1) <==> forall w, d :: Occurs(members[i].value, 1, w, d) ==> FitsAlone(w, d)
    {
      ApprovedExactly(members[i].value, 1);
    }
  }

  /** Some object inside the value carries the key. */
  ghost predicate Carries(v: Js, key: Text) {
    match v
    case Arr(items) => exists i :: 0 <= i < |items| && Carries(items[i], key)
    case Obj(members) => exists i :: 0 <= i < |members| && (members[i].key == key || Carries(members[i].value, key))
    case _ => false
  }

  /** No forbidden key at any depth. */
  lemma {:induction false} ApprovedCarriesNothingForbidden(v: Js, depth: nat, key: Text)
    requires ApprovedValue(v, depth) && Carries(v, key)
    ensures !IsForbiddenKey(key)
    decreases v
  {
    match v
    case Arr(items) =>
      var i :| 0 <= i < |items| && Carries(items[i], key);
      ApprovedCarriesNothingForbidden(items[i], depth + 1, key);
    case Obj(members) => ApprovedMembersCarryNothingForbidden(members, depth + 1, key);
    case _ =>
  }

  lemma {:induction false} ApprovedMembersCarryNothingForbidden(members: seq<Member>, depth: nat, key: Text)
    requires ApprovedPayload(members, depth) && Carries(Obj(members), key)
    ensures !IsForbiddenKey(key)
    decreases members
  {
    var i :| 0 <= i < |members| && (members[i].key == key || Carries(members[i].value, key));
    if members[i].key != key {
      ApprovedCarriesNothingForbidden(members[i].value, depth + 1, key);
    }
  }
}
