/** The in-sample choices of the overfitting validator (internal/backtest/validation.go). */
module Combinations {

  ghost predicate Increasing(c: seq<int>) { forall i, j :: 0 <= i < j < |c| ==> c[i] < c[j] }

  ghost predicate InRange(c: seq<int>, total: int) { forall i :: 0 <= i < |c| ==> 0 <= c[i] < total }

  ghost predicate IsCombination(c: seq<int>, total: nat, choose: nat) {
    |c| == choose && Increasing(c) && InRange(c, total)
  }

  /** a comes before b: they first differ where a is smaller. */
  ghost predicate LexBefore(a: seq<int>, b: seq<int>) {
    exists i :: DiffersAt(a, b, i)
  }

  ghost predicate DiffersAt(a: seq<int>, b: seq<int>, i: int) {
    0 <= i < |a| && i < |b| && a[..i] == b[..i] && a[i] < b[i]
  }

  ghost predicate LexSorted(list: seq<seq<int>>) {
    forall i, j :: 0 <= i < j < |list| ==> LexBefore(list[i], list[j])
  }

  /** Pascal's rule. */
  function Binomial(n: nat, k: nat): nat {
    if k == 0 then 1 else if n == 0 then 0 else Binomial(n - 1, k - 1) + Binomial(n - 1, k)
  }

  // ---- what a visit appends ----

  /** The choices that extend a prefix by values from start on. */
  ghost function Visited(current: seq<int>, start: nat, total: nat, choose: nat): seq<seq<int>>
    requires |current| <= choose
    decreases choose - |current|, total + 1
  {
    if |current| == choose then [current] else Looped(current, start, total, choose)
  }

  ghost function Looped(current: seq<int>, value: nat, total: nat, choose: nat): seq<seq<int>>
    requires |current| < choose
    decreases choose - |current|, if value <= total then total - value else 0
  {
    if value > total - (choose - |current|) then []
    else Visited(current + [value], value + 1, total, choose) + Looped(current, value + 1, total, choose)
  }

  /** The shared slices of the recursive closure. */
  class Enumerator {
    const total: nat
    const choose: nat
    var current: seq<int>
    var result: seq<seq<int>>

    constructor (total: nat, choose: nat)
      ensures this.total == total && this.choose == choose && current == [] && result == []
    {
      this.total, this.choose, current, result := total, choose, [], [];
    }

    method Visit(start: nat)
      requires |current| <= choose
      modifies this
      ensures current == old(current)
      ensures result == old(result) + Visited(old(current), start, total, choose)
      decreases choose - |current|
    {
      if |current| == choose {
        result := result + [current];
        return;
      }
      var value := start;
      ghost var prefix, before := current, result;
      while value <= total - (choose - |current|)
        invariant start <= value && current == prefix
        invariant before + Visited(prefix, start, total, choose) == result + Looped(prefix, value, total, choose)
        decreases total - value
      {
        current := current + [value];
        Visit(value + 1);
        current := current[..|current| - 1];
        value := value + 1;
      }
    }
  }

  method IndexCombinations(total: nat, choose: nat) returns (result: seq<seq<int>>)
    ensures result == Visited([], 0, total, choose)
    ensures LexSorted(result)
    ensures forall c :: c in result <==> IsCombination(c, total, choose)
    ensures |result| == Binomial(total, choose)
  {
    var enumerator := new Enumerator(total, choose);
    enumerator.Visit(0);
    result := enumerator.result;
    CombinationsInOrder(total, choose);
    CombinationsAreAll(total, choose);
    CombinationCount(total, choose);
  }

  // ---- membership ----

  /** c is a choice that starts with the prefix and continues from start on. */
  ghost predicate Extends(c: seq<int>, current: seq<int>, start: int, total: nat, choose: nat) {
    && IsCombination(c, total, choose)
    && |current| <= choose && c[..|current|] == current
    && (|current| < choose ==> c[|current|] >= start)
  }

  ghost predicate PrefixBelow(current: seq<int>, start: int, total: nat) {
    Increasing(current) && InRange(current, total) && (current != [] ==> current[|current| - 1] < start)
  }

  lemma {:induction false} VisitedMembers(current: seq<int>, start: nat, total: nat, choose: nat, c: seq<int>)
    requires |current| <= choose && PrefixBelow(current, start, total)
    ensures c in Visited(current, start, total, choose) <==> Extends(c, current, start, total, choose)
    decreases choose - |current|, total + 1
  {
    if |current| == choose {
      assert |c| == choose ==> c[..|current|] == c;
    } else {
      LoopedMembers(current, start, total, choose, c);
    }
  }

  lemma {:induction false} LoopedMembers(current: seq<int>, value: nat, total: nat, choose: nat, c: seq<int>)
    requires |current| < choose && PrefixBelow(current, value, total)
    ensures c in Looped(current, value, total, choose) <==> Extends(c, current, value, total, choose)
    decreases choose - |current|, if value <= total then total - value else 0
  {
    var k := |current|;
    if value > total - (choose - k) {
      if Extends(c, current, value, total, choose) {
        IncreasingSpreads(c, k, choose - 1);
      }
    } else {
      var longer := current + [value];
      VisitedMembers(longer, value + 1, total, choose, c);
      LoopedMembers(current, value + 1, total, choose, c);
      if |c| == choose {
        assert c[..k + 1] == c[..k] + [c[k]];
        assert Extends(c, longer, value + 1, total, choose) <==> Extends(c, current, value, total, choose) && c[k] == value;
      }
    }
  }

  lemma {:induction false} IncreasingSpreads(c: seq<int>, i: nat, j: nat)
    requires Increasing(c) && i <= j < |c|
    ensures c[j] - c[i] >= j - i
  {
    if i < j {
      IncreasingSpreads(c, i, j - 1);
    }
  }

  /** Exactly the increasing sequences of that length. */
  lemma CombinationsAreAll(total: nat, choose: nat)
    ensures forall c :: c in Visited([], 0, total, choose) <==> IsCombination(c, total, choose)
  {
    forall c ensures c in Visited([], 0, total, choose) <==> IsCombination(c, total, choose) {
      VisitedMembers([], 0, total, choose, c);
    }
  }

  // ---- order ----

  lemma {:induction false} VisitedInOrder(current: seq<int>, start: nat, total: nat, choose: nat)
    requires |current| <= choose && PrefixBelow(current, start, total)
    ensures LexSorted(Visited(current, start, total, choose))
    decreases choose - |current|, total + 1
  {
    if |current| < choose {
      LoopedInOrder(current, start, total, choose);
    }
  }

  lemma {:induction false} LoopedInOrder(current: seq<int>, value: nat, total: nat, choose: nat)
    requires |current| < choose && PrefixBelow(current, value, total)
    ensures LexSorted(Looped(current, value, total, choose))
    decreases choose - |current|, if value <= total then total - value else 0
  {
    hide LexBefore, LexSorted, Extends;
    if value > total - (choose - |current|) {
      EmptyIsSorted();
    } else {
      var longer := current + [value];
      VisitedInOrder(longer, value + 1, total, choose);
      LoopedInOrder(current, value + 1, total, choose);
      var first, rest := Visited(longer, value + 1, total, choose), Looped(current, value + 1, total, choose);
      forall a, b | a in first && b in rest ensures LexBefore(a, b) {
        VisitedMembers(longer, value + 1, total, choose, a);
        LoopedMembers(current, value + 1, total, choose, b);
        SmallerNextValue(a, b, current, value, total, choose);
      }
      SortedConcat(first, rest);
    }
  }

  lemma EmptyIsSorted()
    ensures LexSorted([])
  {
  }

  lemma SmallerNextValue(a: seq<int>, b: seq<int>, current: seq<int>, value: nat, total: nat, choose: nat)
    requires |current| < choose
    requires Extends(a, current + [value], value + 1, total, choose)
    requires Extends(b, current, value + 1, total, choose)
    ensures LexBefore(a, b)
  {
    var k := |current|;
    assert a[..k] == a[..k + 1][..k] && a[k] == a[..k + 1][k];
    assert DiffersAt(a, b, k);
  }

  lemma SortedConcat(a: seq<seq<int>>, b: seq<seq<int>>)
    requires LexSorted(a) && LexSorted(b)
    requires forall x, y :: x in a && y in b ==> LexBefore(x, y)
    ensures LexSorted(a + b)
  {
    forall i, j | 0 <= i < j < |a + b| ensures LexBefore((a + b)[i], (a + b)[j]) {
      if i < |a| <= j {
        assert a[i] in a && b[j - |a|] in b;
      }
    }
  }

  /** Each once, and in lexicographic order. */
  lemma CombinationsInOrder(total: nat, choose: nat)
    ensures LexSorted(Visited([], 0, total, choose))
    ensures forall i, j :: 0 <= i < j < |Visited([], 0, total, choose)| ==>
      Visited([], 0, total, choose)[i] != Visited([], 0, total, choose)[j]
  {
    VisitedInOrder([], 0, total, choose);
    var list := Visited([], 0, total, choose);
    forall i, j | 0 <= i < j < |list| ensures list[i] != list[j] {
      assert LexBefore(list[i], list[j]);
    }
  }

  // ---- count ----

  lemma {:induction false} VisitedCount(current: seq<int>, start: nat, total: nat, choose: nat)
    requires |current| <= choose && start <= total
    ensures |Visited(current, start, total, choose)| == Binomial(total - start, choose - |current|)
    decreases choose - |current|, total + 1
  {
    if |current| < choose {
      LoopedCount(current, start, total, choose);
    }
  }

  lemma {:induction false} LoopedCount(current: seq<int>, value: nat, total: nat, choose: nat)
    requires |current| < choose && value <= total
    ensures |Looped(current, value, total, choose)| == Binomial(total - value, choose - |current|)
    decreases choose - |current|, total - value
  {
    if value > total - (choose - |current|) {
      TooFew(total - value, choose - |current|);
    } else {
      VisitedCount(current + [value], value + 1, total, choose);
      LoopedCount(current, value + 1, total, choose);
    }
  }

  lemma {:induction false} TooFew(n: nat, k: nat)
    requires n < k
    ensures Binomial(n, k) == 0
  {
    if n > 0 {
      TooFew(n - 1, k - 1);
      TooFew(n - 1, k);
    }
  }

  lemma CombinationCount(total: nat, choose: nat)
    ensures |Visited([], 0, total, choose)| == Binomial(total, choose)
  {
    VisitedCount([], 0, total, choose);
  }

  // ---- the out-of-sample half ----

  /** The groups that were not chosen, in order. */
  function Complement(c: seq<int>, n: nat): seq<int> {
    if n == 0 then [] else Complement(c, n - 1) + if n - 1 in c then [] else [n - 1]
  }

  /** The loops of the validator that split the groups. */
  method OutOfSample(inSample: seq<int>, segments: nat) returns (out: seq<int>)
    ensures out == Complement(inSample, segments)
  {
    var selected := {};
    var i := 0;
    while i < |inSample|
      invariant 0 <= i <= |inSample|
      invariant forall x :: x in selected <==> x in inSample[..i]
    {
      selected := selected + {inSample[i]};
      assert inSample[..i + 1] == inSample[..i] + [inSample[i]];
      i := i + 1;
    }
    assert inSample[..i] == inSample;
    out := [];
    var group := 0;
    while group < segments
      invariant 0 <= group <= segments
      invariant out == Complement(inSample, group)
    {
      if group !in selected {
        out := out + [group];
      }
      group := group + 1;
    }
  }

  lemma {:induction false} ComplementMembers(c: seq<int>, n: nat)
    ensures Increasing(Complement(c, n)) && InRange(Complement(c, n), n)
    ensures forall x :: x in Complement(c, n) <==> 0 <= x < n && x !in c
  {
    if n > 0 {
      ComplementMembers(c, n - 1);
    }
  }

  lemma {:induction false} ComplementSize(c: seq<int>, n: nat)
    requires Increasing(c) && InRange(c, n)
    ensures |Complement(c, n)| == n - |c|
  {
    AtMost(c, n);
    if n > 0 {
      if n - 1 in c {
        var k := |c| - 1;
        LastIsLargest(c, n - 1);
        ComplementSize(c[..k], n - 1);
        ComplementOfPrefix(c, n - 1);
      } else {
        ComplementSize(c, n - 1);
      }
    }
  }

  lemma AtMost(c: seq<int>, n: nat)
    requires Increasing(c) && InRange(c, n)
    ensures |c| <= n
  {
    if c != [] {
      IncreasingSpreads(c, 0, |c| - 1);
    }
  }

  lemma LastIsLargest(c: seq<int>, m: int)
    requires Increasing(c) && InRange(c, m + 1) && m in c
    ensures c[|c| - 1] == m
    ensures Increasing(c[..|c| - 1]) && InRange(c[..|c| - 1], m)
  {
    NoneAboveLast(c, m);
  }

  lemma NoneAboveLast(c: seq<int>, x: int)
    requires Increasing(c) && x in c
    ensures x <= c[|c| - 1]
  {
    var i :| 0 <= i < |c| && c[i] == x;
    assert c[i] <= c[|c| - 1];
  }

  lemma MembersBeforeLast(c: seq<int>, x: int)
    requires Increasing(c) && c != []
    ensures x in c[..|c| - 1] <==> x in c && x != c[|c| - 1]
  {
    assert c == c[..|c| - 1] + [c[|c| - 1]];
  }

  lemma {:induction false} ComplementOfPrefix(c: seq<int>, n: nat)
    requires c != [] && c[|c| - 1] >= n
    ensures Complement(c, n) == Complement(c[..|c| - 1], n)
  {
    if n > 0 {
      ComplementOfPrefix(c, n - 1);
      assert c == c[..|c| - 1] + [c[|c| - 1]];
    }
  }

  lemma {:induction false} IncreasingIsDetermined(a: seq<int>, b: seq<int>)
    requires Increasing(a) && Increasing(b) && forall x :: x in a <==> x in b
    ensures a == b
  {
    SameEmptiness(a, b);
    if a != [] {
      var x, y := a[|a| - 1], b[|b| - 1];
      assert x in a && y in b;
      NoneAboveLast(a, y);
      NoneAboveLast(b, x);
      var p, q := a[..|a| - 1], b[..|b| - 1];
      forall z ensures z in p <==> z in q {
        MembersBeforeLast(a, z);
        MembersBeforeLast(b, z);
      }
      IncreasingIsDetermined(p, q);
      assert a == p + [x] && b == q + [y];
    }
  }

  lemma SameEmptiness(a: seq<int>, b: seq<int>)
    requires forall x :: x in a <==> x in b
    ensures a == [] <==> b == []
  {
    if a != [] {
      var x := a[0];
      assert x in a;
    }
    if b != [] {
      var x := b[0];
      assert x in b;
    }
  }

  /**
   With an even number of groups, the out-of-sample half of every choice is itself one of the choices,
   disjoint from it, and its own out-of-sample half is the choice again.
   */
  lemma HalvesAreComplements(c: seq<int>, segments: nat)
    requires segments % 2 == 0 && IsCombination(c, segments, segments / 2)
    ensures IsCombination(Complement(c, segments), segments, segments / 2)
    ensures forall x :: 0 <= x < segments ==> (x in Complement(c, segments) <==> x !in c)
    ensures Complement(Complement(c, segments), segments) == c
  {
    var d := Complement(c, segments);
    ComplementMembers(c, segments);
    ComplementSize(c, segments);
    ComplementMembers(d, segments);
    IncreasingIsDetermined(Complement(d, segments), c);
  }
}
