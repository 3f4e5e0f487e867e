/** Routing orders: which orders a sender may give the signers, and whose turn it is. */
module Routing {
  import opened Lifecycle

  datatype RoutingVerdict =
    | Accepted
    | NoSigners
    | InvalidOrder
    | ParallelMustBeOne
    | OrderedMustBeUnique
    | OrderedMustBeConsecutive

  /** The numbers 1..n in increasing order. */
  function Consecutive(n: nat): (r: seq<int>)
    ensures |r| == n && forall i :: 0 <= i < n ==> r[i] == i + 1
  {
    seq(n, i => i + 1)
  }

  /** What the product promises: parallel signers all share order 1, and ordered signers carry
      1..n in some arrangement. */
  ghost predicate WellRouted(mode: SigningMode, orders: seq<int>) {
    && |orders| >= 1
    && match mode
       case Parallel => forall i :: 0 <= i < |orders| ==> orders[i] == 1
       case Ordered => multiset(orders) == multiset(Consecutive(|orders|))
  }

  /** The check of the source: a loop over the orders, then a set of the distinct ones, then a loop
      over the orders that have to be there. */
  method AssertSignerRouting(mode: SigningMode, orders: seq<int>) returns (verdict: RoutingVerdict)
    ensures verdict == Accepted <==> WellRouted(mode, orders)
    ensures verdict == NoSigners <==> orders == []
    ensures verdict == InvalidOrder <==> exists i :: 0 <= i < |orders| && orders[i] < 1
  {
    WellRoutedMembers(orders);
    CountDistinct(orders);
    if |orders| < 1 {
      return NoSigners;
    }
    for i := 0 to |orders|
      invariant forall j :: 0 <= j < i ==> orders[j] >= 1
    {
      if orders[i] < 1 {
        assert orders[i] in orders;
        return InvalidOrder;
      }
    }
    if mode == Parallel {
      return if exists i :: 0 <= i < |orders| && orders[i] != 1 then ParallelMustBeOne else Accepted;
    }
    var unique := Members(orders);
    if |unique| != |orders| {
      return OrderedMustBeUnique;
    }
    for expected := 1 to |orders| + 1
      invariant forall e :: 1 <= e < expected ==> e in unique
    {
      if expected !in unique {
        assert expected !in orders;
        return OrderedMustBeConsecutive;
      }
    }
    forall e | 1 <= e <= |orders|
      ensures e in orders
    {
      assert e in unique;
    }
    DistinctAndCoveringIsRouted(orders);
    return Accepted;
  }

  ghost predicate Distinct(orders: seq<int>) {
    forall i, j :: 0 <= i < j < |orders| ==> orders[i] != orders[j]
  }

  function Members(orders: seq<int>): set<int> {
    set order | order in orders
  }

  /** Being routed in order means: no order twice, and exactly 1..n occur. */
  lemma WellRoutedMembers(orders: seq<int>)
    ensures WellRouted(Ordered, orders) ==>
              && Distinct(orders)
              && (forall x :: x in orders <==> 1 <= x <= |orders|)
  {
    if WellRouted(Ordered, orders) {
      var line := Consecutive(|orders|);
      forall x
        ensures x in orders <==> 1 <= x <= |orders|
        ensures multiset(orders)[x] <= 1
      {
        MultisetOfDistinct(line, x);
        assert x in orders <==> x in multiset(orders);
        assert x in line <==> x in multiset(line);
        assert 1 <= x <= |orders| ==> line[x - 1] == x;
      }
      forall i, j | 0 <= i < j < |orders|
        ensures orders[i] != orders[j]
      {
        RepeatedCountsTwice(orders, i, j);
      }
    }
  }

  lemma RepeatedCountsTwice(orders: seq<int>, i: nat, j: nat)
    requires i < j < |orders|
    ensures multiset(orders)[orders[i]] >= if orders[i] == orders[j] then 2 else 1
  {
    assert orders == orders[..j] + [orders[j]] + orders[j + 1..];
    assert orders[..j][i] == orders[i];
  }

  lemma MultisetOfDistinct(orders: seq<int>, x: int)
    requires Distinct(orders)
    ensures multiset(orders)[x] == if x in orders then 1 else 0
  {
    if orders != [] {
      var last := |orders| - 1;
      assert orders == orders[..last] + [orders[last]];
      MultisetOfDistinct(orders[..last], x);
    }
  }

  lemma {:induction false} DistinctCount(orders: seq<int>)
    requires Distinct(orders)
    ensures |Members(orders)| == |orders|
  {
    if orders == [] {
      assert Members(orders) == {};
    } else {
      var last := |orders| - 1;
      DistinctCount(orders[..last]);
      assert Members(orders) == Members(orders[..last]) + {orders[last]};
    }
  }

  lemma {:induction false} MembersAtMost(orders: seq<int>)
    ensures |Members(orders)| <= |orders|
  {
    if orders == [] {
      assert Members(orders) == {};
    } else {
      var last := |orders| - 1;
      MembersAtMost(orders[..last]);
      assert Members(orders) == Members(orders[..last]) + {orders[last]};
    }
  }

  lemma DuplicateShrinks(orders: seq<int>, i: nat, j: nat)
    requires i < j < |orders|
    ensures |Members(orders)| == |orders| ==> orders[i] != orders[j]
  {
    if orders[i] == orders[j] {
      var rest := orders[..j] + orders[j + 1..];
      MembersAtMost(rest);
      forall x | x in orders
        ensures x in rest
      {
        var k :| 0 <= k < |orders| && orders[k] == x;
        assert rest[if k < j then k else if k == j then i else k - 1] == x;
      }
      assert Members(orders) == Members(rest);
    }
  }

  lemma CountDistinct(orders: seq<int>)
    ensures |Members(orders)| == |orders| <==> Distinct(orders)
  {
    if Distinct(orders) {
      DistinctCount(orders);
    }
    forall i, j | 0 <= i < j < |orders|
      ensures |Members(orders)| == |orders| ==> orders[i] != orders[j]
    {
      DuplicateShrinks(orders, i, j);
    }
  }

  lemma DistinctAndCoveringIsRouted(orders: seq<int>)
    requires orders != [] && Distinct(orders)
    requires forall e :: 1 <= e <= |orders| ==> e in orders
    ensures WellRouted(Ordered, orders)
  {
    var line := Consecutive(|orders|);
    DistinctCount(orders);
    DistinctCount(line);
    assert Members(line) <= Members(orders) by {
      forall x | x in line
        ensures x in orders
      {
        var k :| 0 <= k < |line| && line[k] == x;
      }
    }
    SubsetOfEqualSize(Members(line), Members(orders));
    forall x
      ensures multiset(orders)[x] == multiset(line)[x]
    {
      MultisetOfDistinct(orders, x);
      MultisetOfDistinct(line, x);
      assert x in orders <==> x in Members(orders);
      assert x in line <==> x in Members(line);
    }
  }

  lemma SubsetOfEqualSize(a: set<int>, b: set<int>)
    requires a <= b && |a| == |b|
    ensures a == b
  {
    assert b == a + (b - a);
  }
}
