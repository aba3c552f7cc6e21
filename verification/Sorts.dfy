/** Go's sort.Slice on a short slice, which is an insertion sort. The comparison may change while the sort runs, as it
    does when it reads counters that other threads update: `less(t, a, b)` is what it says at its t-th use. */
module Sorts {

  ghost predicate StrictWeakOrder<T>(less: (nat, T, T) -> bool, t: nat, xs: seq<T>) {
    && (forall a :: a in xs ==> !less(t, a, a))
    && (forall a, b :: a in xs && b in xs && less(t, a, b) ==> !less(t, b, a))
    && (forall a, b, c :: a in xs && b in xs && c in xs && !less(t, a, b) && !less(t, b, c) ==> !less(t, a, c))
  }

  /** Nothing later in the list is less than something earlier. */
  ghost predicate Sorted<T>(less: (nat, T, T) -> bool, t: nat, xs: seq<T>) {
    forall i, j :: 0 <= i < j < |xs| ==> !less(t, xs[j], xs[i])
  }

  /** The comparison says the same from its use t0 to its use t1. */
  ghost predicate Steady<T(!new)>(less: (nat, T, T) -> bool, t0: nat, t1: nat) {
    forall t, a, b :: t0 <= t <= t1 ==> less(t, a, b) == less(t0, a, b)
  }

  function Swap<T>(xs: seq<T>, j: nat): (ys: seq<T>)
    requires 0 < j < |xs|
    ensures |ys| == |xs| && multiset(ys) == multiset(xs)
  {
    xs[j := xs[j - 1]][j - 1 := xs[j]]
  }

  /** Sorted except that the element at j may still have to move left. */
  ghost predicate SortedBut<T>(less: (nat, T, T) -> bool, t: nat, xs: seq<T>, j: nat) {
    forall k, l :: 0 <= k < l < |xs| && l != j ==> !less(t, xs[l], xs[k])
  }

  /** Whatever the comparison does meanwhile the result is a permutation; if it holds still and is a strict weak order
      of the elements, the result is sorted. */
  method SortSlice<T(!new, ==)>(xs: seq<T>, less: (nat, T, T) -> bool, t0: nat) returns (ys: seq<T>, t1: nat)
    ensures t0 <= t1 && |ys| == |xs| && multiset(ys) == multiset(xs)
    ensures Steady(less, t0, t1) && StrictWeakOrder(less, t0, xs) ==> Sorted(less, t0, ys)
  {
    ys, t1 := xs, t0;
    ghost var swo := StrictWeakOrder(less, t0, xs);
    var i := 1;
    while i < |ys|
      invariant |ys| == |xs| && multiset(ys) == multiset(xs) && t0 <= t1
      invariant |ys| > 0 ==> 1 <= i <= |ys|
      invariant swo && Steady(less, t0, t1) ==> |ys| == 0 || Sorted(less, t0, ys[..i])
    {
      var j := i;
      while j > 0
        invariant 0 <= j <= i < |ys| == |xs| && multiset(ys) == multiset(xs) && t0 <= t1
        invariant swo && Steady(less, t0, t1) ==> SortedBut(less, t0, ys[..i + 1], j)
      {
        ghost var was := ys;
        t1 := t1 + 1;
        PartIsOrdered(less, t0, xs, ys, i + 1);
        if !less(t1, ys[j], ys[j - 1]) {
          if swo && Steady(less, t0, t1) {
            assert Steady(less, t0, t1 - 1);
            InsertionDone(less, t0, ys[..i + 1], j);
          }
          break;
        }
        ys := Swap(ys, j);
        if swo && Steady(less, t0, t1) {
          assert Steady(less, t0, t1 - 1);
          InsertionStep(less, t0, was[..i + 1], j);
          assert ys[..i + 1] == Swap(was[..i + 1], j);
        }
        j := j - 1;
      }
      i := i + 1;
    }
    assert ys[..|ys|] == ys;
  }

  lemma SameMembers<T>(xs: seq<T>, ys: seq<T>)
    requires multiset(xs) == multiset(ys)
    ensures forall x :: x in xs <==> x in ys
  {
    assert forall x :: x in xs <==> x in multiset(xs);
    assert forall x :: x in ys <==> x in multiset(ys);
  }

  lemma PartIsOrdered<T>(less: (nat, T, T) -> bool, t: nat, xs: seq<T>, ys: seq<T>, n: nat)
    requires multiset(xs) == multiset(ys) && n <= |ys|
    ensures StrictWeakOrder(less, t, xs) ==> StrictWeakOrder(less, t, ys[..n])
  {
    SameMembers(xs, ys);
    assert forall x :: x in ys[..n] ==> x in ys;
  }

  lemma InsertionStep<T>(less: (nat, T, T) -> bool, t: nat, xs: seq<T>, j: nat)
    requires 0 < j < |xs| && StrictWeakOrder(less, t, xs) && SortedBut(less, t, xs, j) && less(t, xs[j], xs[j - 1])
    ensures SortedBut(less, t, Swap(xs, j), j - 1)
  {
    var ys := Swap(xs, j);
    forall k, l | 0 <= k < l < |ys| && l != j - 1
      ensures !less(t, ys[l], ys[k])
    {
      if l == j && k < j - 1 {
        assert !less(t, xs[j - 1], xs[k]);
      } else if l > j {
        assert !less(t, xs[l], xs[j]) && !less(t, xs[l], xs[j - 1]);
      }
    }
  }

  lemma InsertionDone<T>(less: (nat, T, T) -> bool, t: nat, xs: seq<T>, j: nat)
    requires 0 < j < |xs| && StrictWeakOrder(less, t, xs) && SortedBut(less, t, xs, j) && !less(t, xs[j], xs[j - 1])
    ensures Sorted(less, t, xs)
  {
    forall k, l | 0 <= k < l < |xs|
      ensures !less(t, xs[l], xs[k])
    {
      if l == j && k < j - 1 {
        assert !less(t, xs[j - 1], xs[k]);
        assert xs[j] in xs && xs[j - 1] in xs && xs[k] in xs;
      }
    }
  }
}
