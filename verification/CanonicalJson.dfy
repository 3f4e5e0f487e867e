/** Canonical JSON: what canonicalizeJsonValue makes of a JavaScript value, and when two values become the same. */
module CanonicalJson {
  import opened Results
  import opened Texts

  datatype Member = Member(key: Text, value: Js)

  /** The values a caller may pass. `Obj` lists the object's own members in any order; `Unsupported` stands
      for functions, symbols and big integers. */
  datatype Js =
    | Null
    | Bool(flag: bool)
    | Num(n: int)
    | Str(text: Text)
    | Arr(items: seq<Js>)
    | Obj(members: seq<Member>)
    | Undefined
    | NonFinite
    | Binary
    | Unsupported

  /** Assigning to this key sets the prototype instead of adding a member. */
  const PROTO := [95, 95, 112, 114, 111, 116, 111, 95, 95]

  predicate DistinctKeys(members: seq<Member>) {
    forall i, j :: 0 <= i < j < |members| ==> members[i].key != members[j].key
  }

  /** No object carries a key twice; every JavaScript value is like this. */
  ghost predicate WellFormed(v: Js) {
    match v
    case Arr(items) => forall i :: 0 <= i < |items| ==> WellFormed(items[i])
    case Obj(members) => DistinctKeys(members) && forall i :: 0 <= i < |members| ==> WellFormed(members[i].value)
    case _ => true
  }

  /* ---- the specification ---- */

  ghost predicate InOrder(members: seq<Member>) {
    forall i, j :: 0 <= i < j < |members| ==> Before(members[i].key, members[j].key)
  }

  /** Where a new member goes among ordered ones. */
  function Place(m: Member, ordered: seq<Member>): seq<Member> {
    if ordered == [] then [m]
    else if Before(ordered[0].key, m.key) then [ordered[0]] + Place(m, ordered[1..])
    else [m] + ordered
  }

  function Arrange(members: seq<Member>): seq<Member> {
    if members == [] then [] else Place(members[0], Arrange(members[1..]))
  }

  /** Every item, or the first complaint. */
  function CanonItems(items: seq<Js>): Result<seq<Js>> {
    if items == [] then Ok([])
    else
      var first :- Canon(items[0]);
      var rest :- CanonItems(items[1..]);
      Ok([first] + rest)
  }

  /** Every member that is neither undefined nor lost to the prototype; the value of a lost one is
      still inspected. */
  function CanonMembers(members: seq<Member>): Result<seq<Member>> {
    if members == [] then Ok([])
    else if members[0].value == Undefined then CanonMembers(members[1..])
    else
      var first :- Canon(members[0].value);
      var rest :- CanonMembers(members[1..]);
      Ok(if members[0].key == PROTO then rest else [Member(members[0].key, first)] + rest)
  }

  function Canon(v: Js): Result<Js> {
    match v
    case Null => Ok(v)
    case Bool(_) => Ok(v)
    case Num(_) => Ok(v)
    case Str(_) => Ok(v)
    case Arr(items) =>
      var canonical :- CanonItems(items);
      Ok(Arr(canonical))
    case Obj(members) =>
      var canonical :- CanonMembers(members);
      Ok(Obj(Arrange(canonical)))
    case _ => Err(UnsupportedJson)
  }

  /** What canonical values look like. */
  ghost predicate IsCanonical(v: Js) {
    match v
    case Null => true
    case Bool(_) => true
    case Num(_) => true
    case Str(_) => true
    case Arr(items) => forall i :: 0 <= i < |items| ==> IsCanonical(items[i])
    case Obj(members) =>
      && InOrder(members)
      && (forall i :: 0 <= i < |members| ==> members[i].key != PROTO && IsCanonical(members[i].value))
    case _ => false
  }

  /* ---- canonical values stay as they are ---- */

  lemma PlaceFirst(m: Member, ordered: seq<Member>)
    requires InOrder([m] + ordered)
    ensures Place(m, ordered) == [m] + ordered
  {
    if ordered != [] {
      var all := [m] + ordered;
      assert Before(all[0].key, all[1].key);
      if Before(ordered[0].key, m.key) {
        BeforeIsTransitive(m.key, ordered[0].key, m.key);
        BeforeIsStrict(m.key);
      }
    }
  }

  lemma {:induction false} ArrangeOrdered(members: seq<Member>)
    requires InOrder(members)
    ensures Arrange(members) == members
  {
    if members != [] {
      ArrangeOrdered(members[1..]);
      assert members == [members[0]] + members[1..];
      PlaceFirst(members[0], members[1..]);
    }
  }

  /** Canonicalizing twice changes nothing. */
  lemma {:induction false} CanonKeepsCanonical(v: Js)
    requires IsCanonical(v)
    ensures Canon(v) == Ok(v)
  {
    match v
    case Arr(items) => CanonKeepsItems(items);
    case Obj(members) =>
      CanonKeepsMembers(members);
      ArrangeOrdered(members);
    case _ =>
  }

  lemma {:induction false} CanonKeepsItems(items: seq<Js>)
    requires forall i :: 0 <= i < |items| ==> IsCanonical(items[i])
    ensures CanonItems(items) == Ok(items)
  {
    if items != [] {
      CanonKeepsCanonical(items[0]);
      CanonKeepsItems(items[1..]);
      assert items == [items[0]] + items[1..];
    }
  }

  lemma {:induction false} CanonKeepsMembers(members: seq<Member>)
    requires forall i :: 0 <= i < |members| ==> members[i].key != PROTO && IsCanonical(members[i].value)
    ensures CanonMembers(members) == Ok(members)
  {
    if members != [] {
      CanonKeepsCanonical(members[0].value);
      CanonKeepsMembers(members[1..]);
      assert members == [members[0]] + members[1..];
      assert members[0] == Member(members[0].key, members[0].value);
    }
  }

  /* ---- canonicalizing gives canonical values ---- */

  ghost predicate HasKey(members: seq<Member>, key: Text) {
    exists i :: 0 <= i < |members| && members[i].key == key
  }

  lemma {:induction false} PlaceHolds(m: Member, ordered: seq<Member>)
    ensures forall x :: x in Place(m, ordered) <==> x == m || x in ordered
    ensures |Place(m, ordered)| == |ordered| + 1
  {
    if ordered != [] {
      PlaceHolds(m, ordered[1..]);
      assert ordered == [ordered[0]] + ordered[1..];
    }
  }

  lemma {:induction false} ArrangeHolds(members: seq<Member>)
    ensures forall x :: x in Arrange(members) <==> x in members
    ensures |Arrange(members)| == |members|
  {
    if members != [] {
      ArrangeHolds(members[1..]);
      PlaceHolds(members[0], Arrange(members[1..]));
      assert members == [members[0]] + members[1..];
    }
  }

  lemma InOrderCons(m: Member, ordered: seq<Member>)
    requires InOrder(ordered) && forall x :: x in ordered ==> Before(m.key, x.key)
    ensures InOrder([m] + ordered)
  {
    var all := [m] + ordered;
    forall i, j | 0 <= i < j < |all|
      ensures Before(all[i].key, all[j].key)
    {
      assert all[j] == ordered[j - 1];
      if i > 0 {
        assert all[i] == ordered[i - 1];
      }
    }
  }

  lemma {:induction false} PlaceInOrder(m: Member, ordered: seq<Member>)
    requires InOrder(ordered) && forall x :: x in ordered ==> x.key != m.key
    ensures InOrder(Place(m, ordered))
  {
    if ordered != [] {
      BeforeIsTotal(ordered[0].key, m.key);
      assert forall x :: x in ordered[1..] ==> x in ordered && Before(ordered[0].key, x.key);
      if Before(ordered[0].key, m.key) {
        PlaceInOrder(m, ordered[1..]);
        PlaceHolds(m, ordered[1..]);
        InOrderCons(ordered[0], Place(m, ordered[1..]));
      } else {
        assert Before(m.key, ordered[0].key) by {
          assert ordered[0] in ordered;
        }
        forall x | x in ordered
          ensures Before(m.key, x.key)
        {
          if x != ordered[0] {
            assert x in ordered[1..];
            BeforeIsTransitive(m.key, ordered[0].key, x.key);
          }
        }
        InOrderCons(m, ordered);
      }
    }
  }

  lemma {:induction false} ArrangeInOrder(members: seq<Member>)
    requires DistinctKeys(members)
    ensures InOrder(Arrange(members))
  {
    if members != [] {
      ArrangeInOrder(members[1..]);
      ArrangeHolds(members[1..]);
      PlaceInOrder(members[0], Arrange(members[1..]));
    }
  }

  /** What canonicalizing the members yields, before they are arranged. */
  ghost predicate Kept(members: seq<Member>, kept: seq<Member>) {
    && DistinctKeys(kept)
    && (forall x :: x in kept ==> x.key != PROTO && IsCanonical(x.value) && HasKey(members, x.key))
  }

  lemma {:induction false} CanonGivesCanonical(v: Js)
    requires WellFormed(v)
    ensures Canon(v).Ok? ==> IsCanonical(Canon(v).value)
  {
    match v
    case Arr(items) => CanonItemsGiveCanonical(items);
    case Obj(members) =>
      CanonMembersGiveCanonical(members);
      if CanonMembers(members).Ok? {
        var kept := CanonMembers(members).value;
        ArrangeInOrder(kept);
        ArrangeHolds(kept);
        assert forall i :: 0 <= i < |Arrange(kept)| ==> Arrange(kept)[i] in kept;
      }
    case _ =>
  }

  lemma {:induction false} CanonItemsGiveCanonical(items: seq<Js>)
    requires forall i :: 0 <= i < |items| ==> WellFormed(items[i])
    ensures CanonItems(items).Ok? ==> |CanonItems(items).value| == |items|
    ensures CanonItems(items).Ok? ==> forall i :: 0 <= i < |items| ==> IsCanonical(CanonItems(items).value[i])
  {
    if items != [] {
      CanonGivesCanonical(items[0]);
      CanonItemsGiveCanonical(items[1..]);
    }
  }

  lemma {:induction false} CanonMembersGiveCanonical(members: seq<Member>)
    requires DistinctKeys(members) && forall i :: 0 <= i < |members| ==> WellFormed(members[i].value)
    ensures CanonMembers(members).Ok? ==> Kept(members, CanonMembers(members).value)
  {
    if members != [] && CanonMembers(members).Ok? {
      CanonMembersGiveCanonical(members[1..]);
      var rest := CanonMembers(members[1..]).value;
      forall key | HasKey(members[1..], key)
        ensures HasKey(members, key) && key != members[0].key
      {
        var i :| 0 <= i < |members[1..]| && members[1..][i].key == key;
        assert members[i + 1].key == key;
      }
      if members[0].value != Undefined {
        CanonGivesCanonical(members[0].value);
        assert members[0].key == members[0].key;
      }
    }
  }
}
