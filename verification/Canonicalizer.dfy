/** The canonicalizer as the source writes it, a loop that assigns the members of a fresh object in sorted
    key order, and the exact account of which values it makes equal. */
module Canonicalizer {
  import opened Results
  import opened Texts
  import opened CanonicalJson

  /* ---- what the members of a canonical object are ---- */

  /** Members that take part in the canonical value. */
  predicate Counts(m: Member) {
    m.value != Undefined && m.key != PROTO
  }

  ghost predicate Canonicalizes(members: seq<Member>) {
    forall i :: 0 <= i < |members| && members[i].value != Undefined ==> Canon(members[i].value).Ok?
  }

  /** `x` is the canonical form of a member that counts. */
  ghost predicate IsFormOf(x: Member, m: Member) {
    Counts(m) && Canon(m.value) == Ok(x.value) && x.key == m.key
  }

  ghost predicate AreForms(forms: seq<Member>, members: seq<Member>) {
    && (forall i :: 0 <= i < |members| && Counts(members[i]) ==> exists x :: x in forms && IsFormOf(x, members[i]))
    && (forall x :: x in forms ==> exists i :: 0 <= i < |members| && IsFormOf(x, members[i]))
  }

  lemma {:induction false} CanonMembersAreForms(members: seq<Member>)
    ensures CanonMembers(members).Ok? <==> Canonicalizes(members)
    ensures CanonMembers(members).Err? ==> CanonMembers(members).failure == UnsupportedJson
    ensures CanonMembers(members).Ok? ==> AreForms(CanonMembers(members).value, members)
  {
    if members != [] {
      CanonMembersAreForms(members[1..]);
      CanonFails(members[0].value);
      assert members == [members[0]] + members[1..];
      assert Canonicalizes(members) <==> (members[0].value != Undefined ==> Canon(members[0].value).Ok?) && Canonicalizes(members[1..]) by {
        assert forall i :: 0 < i < |members| ==> members[i] == members[1..][i - 1];
      }
      if CanonMembers(members).Ok? {
        FormsCons(members);
      }
    }
  }

  lemma FormsCons(members: seq<Member>)
    requires members != [] && CanonMembers(members).Ok? && AreForms(CanonMembers(members[1..]).value, members[1..])
    ensures AreForms(CanonMembers(members).value, members)
  {
    var forms, rest := CanonMembers(members).value, CanonMembers(members[1..]).value;
    assert forms == rest || forms == [forms[0]] + rest;
    assert Counts(members[0]) ==> forms != [] && forms[0] in forms && IsFormOf(forms[0], members[0]);
    ConsForms(members, forms, rest);
  }

  lemma ConsForms(members: seq<Member>, forms: seq<Member>, rest: seq<Member>)
    requires members != [] && AreForms(rest, members[1..])
    requires forms == rest || (forms != [] && forms == [forms[0]] + rest && IsFormOf(forms[0], members[0]))
    requires Counts(members[0]) ==> forms != [] && IsFormOf(forms[0], members[0])
    ensures AreForms(forms, members)
  {
    forall i | 0 <= i < |members| && Counts(members[i])
      ensures exists x :: x in forms && IsFormOf(x, members[i])
    {
      ConsHasForm(members, forms, rest, i);
    }
    forall x | x in forms
      ensures exists i :: 0 <= i < |members| && IsFormOf(x, members[i])
    {
      ConsIsForm(members, forms, rest, x);
    }
  }

  lemma ConsHasForm(members: seq<Member>, forms: seq<Member>, rest: seq<Member>, i: nat)
    requires i < |members| && Counts(members[i]) && AreForms(rest, members[1..]) && forall x :: x in rest ==> x in forms
    requires Counts(members[0]) ==> forms != [] && IsFormOf(forms[0], members[0])
    ensures exists x :: x in forms && IsFormOf(x, members[i])
  {
    if i > 0 {
      var x :| x in rest && IsFormOf(x, members[1..][i - 1]);
      assert x in forms && IsFormOf(x, members[i]);
    } else {
      assert forms[0] in forms;
    }
  }

  lemma ConsIsForm(members: seq<Member>, forms: seq<Member>, rest: seq<Member>, x: Member)
    requires members != [] && AreForms(rest, members[1..]) && (x in rest || IsFormOf(x, members[0]))
    ensures exists i :: 0 <= i < |members| && IsFormOf(x, members[i])
  {
    if x in rest {
      var i :| 0 <= i < |members[1..]| && IsFormOf(x, members[1..][i]);
      assert IsFormOf(x, members[i + 1]);
    }
  }

  lemma {:induction false} CanonFails(v: Js)
    ensures Canon(v).Err? ==> Canon(v).failure == UnsupportedJson
  {
    match v
    case Arr(items) => CanonItemsFail(items);
    case Obj(members) => CanonMembersFail(members);
    case _ =>
  }

  lemma {:induction false} CanonItemsFail(items: seq<Js>)
    ensures CanonItems(items).Err? ==> CanonItems(items).failure == UnsupportedJson
  {
    if items != [] {
      CanonFails(items[0]);
      CanonItemsFail(items[1..]);
    }
  }

  lemma {:induction false} CanonMembersFail(members: seq<Member>)
    ensures CanonMembers(members).Err? ==> CanonMembers(members).failure == UnsupportedJson
  {
    if members != [] {
      CanonFails(members[0].value);
      CanonMembersFail(members[1..]);
    }
  }

  lemma FirstIsMember(members: seq<Member>)
    ensures members != [] ==> members[0] in members
  {
  }

  /** Members in order are determined by which members there are. */
  lemma {:induction false} OrderedOnce(a: seq<Member>, b: seq<Member>)
    requires InOrder(a) && InOrder(b) && forall x :: x in a <==> x in b
    ensures a == b
  {
    if a == [] {
      FirstIsMember(b);
    } else {
      assert a[0] in b && b != [] && b[0] in a;
      var i :| 0 <= i < |b| && b[i] == a[0];
      var j :| 0 <= j < |a| && a[j] == b[0];
      BeforeIsAsymmetric(a[0].key, b[0].key);
      assert a[0] == b[0];
      forall x
        ensures x in a[1..] <==> x in b[1..]
      {
        RestWithoutFirst(a, x);
        RestWithoutFirst(b, x);
      }
      OrderedOnce(a[1..], b[1..]);
      assert a == [a[0]] + a[1..] && b == [b[0]] + b[1..];
    }
  }

  lemma RestWithoutFirst(a: seq<Member>, x: Member)
    requires InOrder(a) && a != []
    ensures x in a[1..] <==> x in a && x != a[0]
  {
    BeforeIsStrict(a[0].key);
    assert a == [a[0]] + a[1..];
    if x in a[1..] {
      var i :| 0 <= i < |a[1..]| && a[1..][i] == x;
      assert Before(a[0].key, a[i + 1].key);
    }
  }

  /* ---- the loop ---- */

  function InsertByKey(m: Member, sorted: seq<Member>): seq<Member> {
    if sorted == [] then [m]
    else if Less(sorted[0].key, m.key) then [sorted[0]] + InsertByKey(m, sorted[1..])
    else [m] + sorted
  }

  /** Object.keys(record).sort(), with the values along. */
  function SortByKey(members: seq<Member>): seq<Member> {
    if members == [] then [] else InsertByKey(members[0], SortByKey(members[1..]))
  }

  ghost predicate KeysAscend(members: seq<Member>) {
    forall i, j :: 0 <= i < j < |members| ==> Less(members[i].key, members[j].key)
  }

  lemma {:induction false} InsertAscends(m: Member, sorted: seq<Member>)
    ensures forall x :: x in InsertByKey(m, sorted) <==> x == m || x in sorted
    ensures KeysAscend(sorted) && (forall x :: x in sorted ==> x.key != m.key) ==> KeysAscend(InsertByKey(m, sorted))
  {
    if sorted != [] {
      InsertAscends(m, sorted[1..]);
      assert sorted == [sorted[0]] + sorted[1..];
      if KeysAscend(sorted) && (forall x :: x in sorted ==> x.key != m.key) {
        LessIsTotal(sorted[0].key, m.key);
        assert sorted[0] in sorted;
        forall x | x in sorted[1..]
          ensures Less(sorted[0].key, x.key)
          ensures Less(m.key, sorted[0].key) ==> Less(m.key, x.key)
        {
          var i :| 0 <= i < |sorted[1..]| && sorted[1..][i] == x;
          assert sorted[i + 1] == x;
          if Less(m.key, sorted[0].key) {
            LessIsTransitive(m.key, sorted[0].key, x.key);
          }
        }
        assert forall x :: x in sorted[1..] ==> x in sorted;
        AscendCons(if Less(sorted[0].key, m.key) then sorted[0] else m,
                   if Less(sorted[0].key, m.key) then InsertByKey(m, sorted[1..]) else sorted);
      }
    }
  }

  lemma AscendCons(m: Member, sorted: seq<Member>)
    ensures KeysAscend(sorted) && (forall x :: x in sorted ==> Less(m.key, x.key)) ==> KeysAscend([m] + sorted)
  {
    var all := [m] + sorted;
    assert forall i :: 0 < i < |all| ==> all[i] == sorted[i - 1] && all[i] in sorted;
  }

  lemma {:induction false} SortAscends(members: seq<Member>)
    ensures forall x :: x in SortByKey(members) <==> x in members
    ensures DistinctKeys(members) ==> KeysAscend(SortByKey(members))
  {
    if members != [] {
      SortAscends(members[1..]);
      InsertAscends(members[0], SortByKey(members[1..]));
      assert members == [members[0]] + members[1..];
    }
  }

  /** Assigning a new member to an ordinary object: an array index takes its place among the indices,
      `__proto__` adds nothing, any other key comes last. */
  function Assign(target: seq<Member>, m: Member): seq<Member> {
    if m.key == PROTO then target
    else if IsArrayIndex(m.key) then Place(m, target)
    else target + [m]
  }

  lemma AssignKeepsOrder(target: seq<Member>, m: Member)
    requires InOrder(target) && forall x :: x in target ==> Less(x.key, m.key)
    ensures InOrder(Assign(target, m))
    ensures forall x :: x in Assign(target, m) <==> x in target || (x == m && m.key != PROTO)
  {
    LessIsStrict(m.key);
    PlaceHolds(m, target);
    PlaceInOrder(m, target);
    if m.key != PROTO && !IsArrayIndex(m.key) {
      var all := target + [m];
      forall i, j | 0 <= i < j < |all|
        ensures Before(all[i].key, all[j].key)
      {
        assert all[i] in target;
      }
    }
  }

  /** canonicalizeJsonValue. */
  method Canonicalize(v: Js) returns (r: Result<Js>)
    requires WellFormed(v)
    ensures r == Canon(v)
    decreases v, 1
  {
    match v
    case Null => return Ok(Null);
    case Bool(flag) => return Ok(Bool(flag));
    case Num(n) => return Ok(Num(n));
    case Str(text) => return Ok(Str(text));
    case Arr(items) => r := CanonicalizeItems(v, items);
    case Obj(members) => r := CanonicalizeMembers(v, members);
    case _ => return Err(UnsupportedJson);
  }

  method CanonicalizeItems(v: Js, items: seq<Js>) returns (r: Result<Js>)
    requires v == Arr(items) && WellFormed(v)
    ensures r == Canon(v)
    decreases v, 0
  {
    var canonical: seq<Js> := [];
    PrependNothing(CanonItems(items));
    assert items[0..] == items;
    for i := 0 to |items|
      invariant CanonItems(items) == Prepend(canonical, CanonItems(items[i..]))
    {
      assert items[i..][1..] == items[i + 1..];
      var entry := Canonicalize(items[i]);
      if entry.Err? {
        return entry;
      }
      PrependOne(canonical, entry.value, CanonItems(items[i + 1..]));
      canonical := canonical + [entry.value];
    }
    assert items[|items|..] == [] && canonical + [] == canonical;
    return Ok(Arr(canonical));
  }

  /** The items done so far in front of what the others come to. */
  ghost function Prepend(done: seq<Js>, rest: Result<seq<Js>>): Result<seq<Js>> {
    if rest.Ok? then Ok(done + rest.value) else rest
  }

  lemma PrependNothing(rest: Result<seq<Js>>)
    ensures Prepend([], rest) == rest
  {
    assert rest.Ok? ==> [] + rest.value == rest.value;
  }

  lemma PrependOne(done: seq<Js>, next: Js, rest: Result<seq<Js>>)
    ensures Prepend(done, if rest.Ok? then Ok([next] + rest.value) else rest) == Prepend(done + [next], rest)
  {
    assert rest.Ok? ==> done + ([next] + rest.value) == done + [next] + rest.value;
  }

  method CanonicalizeMembers(v: Js, members: seq<Member>) returns (r: Result<Js>)
    requires v == Obj(members) && WellFormed(v)
    ensures r == Canon(v)
    decreases v, 0
  {
    CanonMembersAreForms(members);
    SortAscends(members);
    var sorted := SortByKey(members);
    var canonical: seq<Member> := [];
    for k := 0 to |sorted|
      invariant InOrder(canonical) && AreForms(canonical, sorted[..k])
      invariant Canonicalizes(sorted[..k])
    {
      assert sorted[k] in members;
      ghost var at :| 0 <= at < |members| && members[at] == sorted[k];
      if sorted[k].value == Undefined {
        UndefinedAddsNothing(sorted, k, canonical);
        continue;
      }
      var nested := Canonicalize(sorted[k].value);
      if nested.Err? {
        CanonFails(sorted[k].value);
        return nested;
      }
      FormsAscend(sorted, k, canonical);
      AssignKeepsOrder(canonical, Member(sorted[k].key, nested.value));
      AssignAddsForm(sorted, k, canonical, nested.value);
      canonical := Assign(canonical, Member(sorted[k].key, nested.value));
    }
    assert sorted[..|sorted|] == sorted;
    SortedFormsAreForms(members, sorted, canonical);
    ArrangedForms(members, canonical);
    return Ok(Obj(canonical));
  }

  lemma FormsAscend(sorted: seq<Member>, k: nat, forms: seq<Member>)
    requires KeysAscend(sorted) && k < |sorted| && AreForms(forms, sorted[..k])
    ensures forall x :: x in forms ==> Less(x.key, sorted[k].key)
  {
    forall x | x in forms
      ensures Less(x.key, sorted[k].key)
    {
      var i :| 0 <= i < |sorted[..k]| && IsFormOf(x, sorted[..k][i]);
      assert sorted[..k][i] == sorted[i];
    }
  }

  lemma UndefinedAddsNothing(sorted: seq<Member>, k: nat, forms: seq<Member>)
    requires k < |sorted| && AreForms(forms, sorted[..k]) && Canonicalizes(sorted[..k]) && sorted[k].value == Undefined
    ensures AreForms(forms, sorted[..k + 1]) && Canonicalizes(sorted[..k + 1])
  {
    assert sorted[..k + 1] == sorted[..k] + [sorted[k]];
    FormsSnoc(sorted[..k], sorted[k], forms, forms);
  }

  lemma AssignAddsForm(sorted: seq<Member>, k: nat, forms: seq<Member>, value: Js)
    requires k < |sorted| && AreForms(forms, sorted[..k]) && Canonicalizes(sorted[..k])
    requires sorted[k].value != Undefined && Canon(sorted[k].value) == Ok(value)
    ensures AreForms(Assign(forms, Member(sorted[k].key, value)), sorted[..k + 1]) && Canonicalizes(sorted[..k + 1])
  {
    assert sorted[..k + 1] == sorted[..k] + [sorted[k]];
    PlaceHolds(Member(sorted[k].key, value), forms);
    FormsSnoc(sorted[..k], sorted[k], forms, Assign(forms, Member(sorted[k].key, value)));
  }

  lemma FormsSnoc(members: seq<Member>, m: Member, before: seq<Member>, after: seq<Member>)
    requires AreForms(before, members) && Canonicalizes(members)
    requires m.value != Undefined ==> Canon(m.value).Ok?
    requires forall x :: x in after <==> x in before || IsFormOf(x, m)
    ensures AreForms(after, members + [m]) && Canonicalizes(members + [m])
  {
    var all := members + [m];
    forall i | 0 <= i < |all| && Counts(all[i])
      ensures exists x :: x in after && IsFormOf(x, all[i])
    {
      if i < |members| {
        var x :| x in before && IsFormOf(x, members[i]);
        assert x in after && IsFormOf(x, all[i]);
      } else {
        assert IsFormOf(Member(m.key, Canon(m.value).value), all[i]);
      }
    }
    forall x | x in after
      ensures exists i :: 0 <= i < |all| && IsFormOf(x, all[i])
    {
      if x in before {
        var i :| 0 <= i < |members| && IsFormOf(x, members[i]);
        assert IsFormOf(x, all[i]);
      } else {
        assert IsFormOf(x, all[|members|]);
      }
    }
  }

  lemma SortedFormsAreForms(members: seq<Member>, sorted: seq<Member>, forms: seq<Member>)
    requires forall x :: x in sorted <==> x in members
    requires AreForms(forms, sorted) && Canonicalizes(sorted)
    ensures AreForms(forms, members) && Canonicalizes(members)
  {
    forall i | 0 <= i < |members|
      ensures exists k :: 0 <= k < |sorted| && sorted[k] == members[i]
    {
      assert members[i] in sorted;
    }
    forall k | 0 <= k < |sorted|
      ensures exists i :: 0 <= i < |members| && members[i] == sorted[k]
    {
      assert sorted[k] in members;
    }
  }

  /** Ordered forms of the members are the canonical members. */
  lemma ArrangedForms(members: seq<Member>, forms: seq<Member>)
    requires WellFormed(Obj(members)) && Canonicalizes(members) && InOrder(forms) && AreForms(forms, members)
    ensures Canon(Obj(members)) == Ok(Obj(forms))
  {
    CanonMembersAreForms(members);
    CanonMembersGiveCanonical(members);
    var kept := CanonMembers(members).value;
    ArrangeInOrder(kept);
    ArrangeHolds(kept);
    SameForms(members, kept, forms);
    OrderedOnce(Arrange(kept), forms);
  }

  lemma SameForms(members: seq<Member>, a: seq<Member>, b: seq<Member>)
    requires DistinctKeys(members) && AreForms(a, members) && AreForms(b, members)
    ensures forall x :: x in a <==> x in b
  {
    forall x
      ensures x in a ==> x in b
      ensures x in b ==> x in a
    {
      FormInBoth(members, a, b, x);
      FormInBoth(members, b, a, x);
    }
  }

  lemma FormInBoth(members: seq<Member>, a: seq<Member>, b: seq<Member>, x: Member)
    requires AreForms(a, members) && AreForms(b, members)
    ensures x in a ==> x in b
  {
    if x in a {
      var i :| 0 <= i < |members| && IsFormOf(x, members[i]);
      var y :| y in b && IsFormOf(y, members[i]);
      assert x == y;
    }
  }

  /* ---- which values become the same ---- */

  ghost predicate SomeCounts(members: seq<Member>, key: Text) {
    exists j :: 0 <= j < |members| && Counts(members[j]) && members[j].key == key
  }

  /** Equal up to the order of members, undefined members and `__proto__` members, at every depth. */
  ghost predicate SameMeaning(a: Js, b: Js)
    decreases a
  {
    match a
    case Arr(items) => b.Arr? && |b.items| == |items| && forall i :: 0 <= i < |items| ==> SameMeaning(items[i], b.items[i])
    case Obj(members) =>
      && b.Obj?
      && (forall i :: 0 <= i < |members| && Counts(members[i]) ==> SomeCounts(b.members, members[i].key))
      && (forall j :: 0 <= j < |b.members| && Counts(b.members[j]) ==> SomeCounts(members, b.members[j].key))
      && (forall i, j :: (0 <= i < |members| && 0 <= j < |b.members| && Counts(members[i]) && Counts(b.members[j]) && members[i].key == b.members[j].key) ==>
            SameMeaning(members[i].value, b.members[j].value))
    case _ => a == b
  }

  /** Two values have the same canonical form exactly when they mean the same. */
  lemma {:induction false} CanonIsMeaning(a: Js, b: Js)
    requires WellFormed(a) && WellFormed(b) && Canon(a).Ok? && Canon(b).Ok?
    ensures Canon(a) == Canon(b) <==> SameMeaning(a, b)
    decreases a
  {
    match a
    case Arr(items) =>
      if b.Arr? {
        SameCanonicalItems(items, b.items);
        forall i | 0 <= i < |items| && i < |b.items|
          ensures Canon(items[i]) == Canon(b.items[i]) <==> SameMeaning(items[i], b.items[i])
        {
          CanonItemsPointwise(items);
          CanonItemsPointwise(b.items);
          CanonIsMeaning(items[i], b.items[i]);
        }
      }
    case Obj(members) =>
      if b.Obj? {
        CanonMembersAreForms(members);
        CanonMembersAreForms(b.members);
        forall i, j | 0 <= i < |members| && 0 <= j < |b.members| && Counts(members[i]) && Counts(b.members[j])
          ensures Canon(members[i].value) == Canon(b.members[j].value) <==> SameMeaning(members[i].value, b.members[j].value)
        {
          CanonIsMeaning(members[i].value, b.members[j].value);
        }
        SameCanonicalMembers(members, b.members);
      }
    case _ =>
  }

  lemma SameCanonicalItems(a: seq<Js>, b: seq<Js>)
    requires CanonItems(a).Ok? && CanonItems(b).Ok?
    ensures CanonItems(a) == CanonItems(b) <==> |a| == |b| && forall i :: 0 <= i < |a| ==> Canon(a[i]) == Canon(b[i])
  {
    CanonItemsPointwise(a);
    CanonItemsPointwise(b);
    if |a| == |b| && forall i :: 0 <= i < |a| ==> Canon(a[i]) == Canon(b[i]) {
      assert CanonItems(a).value == CanonItems(b).value;
    }
  }

  lemma {:induction false} CanonItemsPointwise(items: seq<Js>)
    requires CanonItems(items).Ok?
    ensures |CanonItems(items).value| == |items|
    ensures forall i :: 0 <= i < |items| ==> Canon(items[i]) == Ok(CanonItems(items).value[i])
  {
    if items != [] {
      CanonItemsPointwise(items[1..]);
      assert forall i :: 0 < i < |items| ==> items[i] == items[1..][i - 1];
    }
  }

  ghost predicate SameForKeys(a: seq<Member>, b: seq<Member>) {
    && (forall i :: 0 <= i < |a| && Counts(a[i]) ==> SomeCounts(b, a[i].key))
    && (forall j :: 0 <= j < |b| && Counts(b[j]) ==> SomeCounts(a, b[j].key))
    && (forall i, j :: (0 <= i < |a| && 0 <= j < |b| && Counts(a[i]) && Counts(b[j]) && a[i].key == b[j].key) ==> Canon(a[i].value) == Canon(b[j].value))
  }

  lemma SameCanonicalMembers(a: seq<Member>, b: seq<Member>)
    requires WellFormed(Obj(a)) && WellFormed(Obj(b)) && Canon(Obj(a)).Ok? && Canon(Obj(b)).Ok?
    ensures Canon(Obj(a)) == Canon(Obj(b)) <==> SameForKeys(a, b)
  {
    CanonMembersAreForms(a);
    CanonMembersAreForms(b);
    ArrangedAreForms(a);
    ArrangedAreForms(b);
    var x, y := Canon(Obj(a)).value.members, Canon(Obj(b)).value.members;
    if x == y {
      EqualFormsSameKeys(a, b, x);
    }
    if SameForKeys(a, b) {
      FormsCarryOver(a, b, x);
      FormsCarryOver(b, a, y);
      SameForms(b, x, y);
      OrderedOnce(x, y);
    }
  }

  lemma ArrangedAreForms(members: seq<Member>)
    requires WellFormed(Obj(members)) && Canon(Obj(members)).Ok?
    ensures AreForms(Canon(Obj(members)).value.members, members) && InOrder(Canon(Obj(members)).value.members)
  {
    CanonMembersAreForms(members);
    CanonMembersGiveCanonical(members);
    ArrangeHolds(CanonMembers(members).value);
    ArrangeInOrder(CanonMembers(members).value);
  }

  lemma EqualFormsSameKeys(a: seq<Member>, b: seq<Member>, forms: seq<Member>)
    requires DistinctKeys(a) && DistinctKeys(b) && AreForms(forms, a) && AreForms(forms, b)
    ensures SameForKeys(a, b)
  {
    FormsGiveKeys(a, b, forms);
    FormsGiveKeys(b, a, forms);
    forall i, j | 0 <= i < |a| && 0 <= j < |b| && Counts(a[i]) && Counts(b[j]) && a[i].key == b[j].key
      ensures Canon(a[i].value) == Canon(b[j].value)
    {
      SameFormSameCanon(a, b, forms, i, j);
    }
  }

  lemma SameFormSameCanon(a: seq<Member>, b: seq<Member>, forms: seq<Member>, i: nat, j: nat)
    requires DistinctKeys(b) && AreForms(forms, a) && AreForms(forms, b)
    requires i < |a| && j < |b| && Counts(a[i]) && Counts(b[j]) && a[i].key == b[j].key
    ensures Canon(a[i].value) == Canon(b[j].value)
  {
    var x :| x in forms && IsFormOf(x, a[i]);
    var k :| 0 <= k < |b| && IsFormOf(x, b[k]);
    assert k == j;
  }

  lemma FormsGiveKeys(a: seq<Member>, b: seq<Member>, forms: seq<Member>)
    requires AreForms(forms, a) && AreForms(forms, b)
    ensures forall i :: 0 <= i < |a| && Counts(a[i]) ==> SomeCounts(b, a[i].key)
  {
    forall i | 0 <= i < |a| && Counts(a[i])
      ensures SomeCounts(b, a[i].key)
    {
      var x :| x in forms && IsFormOf(x, a[i]);
      var k :| 0 <= k < |b| && IsFormOf(x, b[k]);
    }
  }

  lemma FormsCarryOver(a: seq<Member>, b: seq<Member>, forms: seq<Member>)
    requires SameForKeys(a, b) && AreForms(forms, a)
    ensures AreForms(forms, b)
  {
    forall j | 0 <= j < |b| && Counts(b[j])
      ensures exists x :: x in forms && IsFormOf(x, b[j])
    {
      var i :| 0 <= i < |a| && Counts(a[i]) && a[i].key == b[j].key;
      var x :| x in forms && IsFormOf(x, a[i]);
      assert IsFormOf(x, b[j]);
    }
    forall x | x in forms
      ensures exists j :: 0 <= j < |b| && IsFormOf(x, b[j])
    {
      FormCarriesOver(a, b, forms, x);
    }
  }

  lemma FormCarriesOver(a: seq<Member>, b: seq<Member>, forms: seq<Member>, x: Member)
    requires SameForKeys(a, b) && AreForms(forms, a) && x in forms
    ensures exists j :: 0 <= j < |b| && IsFormOf(x, b[j])
  {
    var i :| 0 <= i < |a| && IsFormOf(x, a[i]);
    var j :| 0 <= j < |b| && Counts(b[j]) && b[j].key == a[i].key;
    assert IsFormOf(x, b[j]);
  }
}
