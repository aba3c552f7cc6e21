/** How the load balancer walks the sources of a stream (proxy/loadbalancer/instance.go). */
module SourceWalk {
  import opened BufferPools
  import opened Text
  import Sorts

  type Index = string

  /** Numbers first and by value, then the other names in string order. */
  predicate LessSourceIndex(a: Index, b: Index) {
    var x, y := Atoi(a), Atoi(b);
    if x.Some? && y.Some? then x.value < y.value
    else if x.Some? then true
    else if y.Some? then false
    else Less(a, b)
  }

  /** The comparison used for sorting: higher priority first, then LessSourceIndex. */
  predicate Better(p: Index -> int, a: Index, b: Index) {
    if p(a) != p(b) then p(a) > p(b) else LessSourceIndex(a, b)
  }

  lemma LessSourceIndexLaws(a: Index, b: Index, c: Index)
    ensures !LessSourceIndex(a, a)
    ensures LessSourceIndex(a, b) && LessSourceIndex(b, c) ==> LessSourceIndex(a, c)
    ensures !LessSourceIndex(a, b) && !LessSourceIndex(b, c) ==> !LessSourceIndex(a, c)
  {
    LessIsStrict(a);
    if Less(a, b) && Less(b, c) { LessIsTransitive(a, b, c); }
    if Less(a, c) && !Less(a, b) {
      LessIsTotal(a, b);
      if Less(b, a) { LessIsTransitive(b, a, c); }
    }
  }

  /** The comparison is a strict weak order for any fixed priorities, so a sort by it is meaningful. */
  lemma BetterIsStrictWeakOrder(p: Index -> int, a: Index, b: Index, c: Index)
    ensures !Better(p, a, a)
    ensures Better(p, a, b) ==> !Better(p, b, a)
    ensures Better(p, a, b) && Better(p, b, c) ==> Better(p, a, c)
    ensures !Better(p, a, b) && !Better(p, b, c) ==> !Better(p, a, c)
  {
    LessSourceIndexLaws(a, b, c);
    LessSourceIndexLaws(a, b, a);
  }

  ghost predicate Distinct(xs: seq<Index>) { forall i, j :: 0 <= i < j < |xs| ==> xs[i] != xs[j] }

  /** Priorities as the sort reads them: they can change with every reading. */
  type Clock = (nat, Index) -> int

  ghost predicate Steady(clock: Clock, t0: nat, t1: nat) {
    forall t, x :: t0 <= t <= t1 ==> clock(t, x) == clock(t0, x)
  }

  function Now(clock: Clock, t: nat): Index -> int { x => clock(t, x) }

  function ByPriority(clock: Clock): (nat, Index, Index) -> bool { (t: nat, a: Index, b: Index) => Better(Now(clock, t), a, b) }

  lemma SteadyPrioritiesSort(clock: Clock, t0: nat, t1: nat, xs: seq<Index>)
    requires Steady(clock, t0, t1)
    ensures Sorts.Steady(ByPriority(clock), t0, t1) && Sorts.StrictWeakOrder(ByPriority(clock), t0, xs)
  {
    forall t, a, b | t0 <= t <= t1
      ensures ByPriority(clock)(t, a, b) == ByPriority(clock)(t0, a, b)
    {
      assert clock(t, a) == clock(t0, a) && clock(t, b) == clock(t0, b);
    }
    forall a, b, c
      ensures !ByPriority(clock)(t0, a, a)
      ensures ByPriority(clock)(t0, a, b) ==> !ByPriority(clock)(t0, b, a)
      ensures !ByPriority(clock)(t0, a, b) && !ByPriority(clock)(t0, b, c) ==> !ByPriority(clock)(t0, a, c)
    {
      BetterIsStrictWeakOrder(Now(clock, t0), a, b, c);
    }
  }

  /** The URLs of a stream, by source; a source with an empty inner map has none. */
  type Urls = map<Index, map<string, string>>

  predicate HasUrls(urls: Urls, x: Index) { x in urls && |urls[x]| > 0 }

  /** Whether an index names a discovered source. `upper` is strings.ToUpper. */
  predicate IsDiscovered(upper: string -> string, x: Index) { "DISC_" <= upper(x) }

  /** Exactly the configured indexes and the discovered ones that the stream has, trimmed, not blank, each once. */
  ghost predicate IsMerged(indexes: seq<Index>, urls: Urls, upper: string -> string, merged: seq<Index>) {
    && Distinct(merged)
    && forall y :: y in merged <==>
         (y != "" && ((exists x :: x in indexes && y == TrimSpace(x))
                      || (exists x :: HasUrls(urls, x) && y == TrimSpace(x) && IsDiscovered(upper, y))))
  }

  /** The configured indexes, trimmed and without repetition, then the discovered ones that the stream has;
      `order` is the order in which the map of URLs happens to be walked. */
  method AppendDiscoveryIndexes(indexes: seq<Index>, urls: Urls, order: seq<Index>, upper: string -> string)
    returns (merged: seq<Index>)
    requires forall x :: x in order <==> x in urls
    ensures IsMerged(indexes, urls, upper, merged)
  {
    var seen: set<Index> := {};
    merged := [];
    for i := 0 to |indexes|
      invariant Distinct(merged) && (forall y :: y in seen <==> y in merged)
      invariant forall y :: y in merged <==> y != "" && exists k :: 0 <= k < i && y == TrimSpace(indexes[k])
    {
      var trimmed := TrimSpace(indexes[i]);
      if trimmed == "" { continue; }
      if trimmed in seen { continue; }
      seen := seen + {trimmed};
      merged := merged + [trimmed];
    }
    merged := AppendDiscovered(merged, seen, urls, order, upper);
  }

  /** The loop over the stream's own sources. */
  method AppendDiscovered(configured: seq<Index>, alreadySeen: set<Index>, urls: Urls, order: seq<Index>,
                          upper: string -> string)
    returns (merged: seq<Index>)
    requires Distinct(configured) && (forall y :: y in alreadySeen <==> y in configured) && forall x :: x in order <==> x in urls
    ensures Distinct(merged)
    ensures forall y :: y in merged <==> (y in configured ||
              (y != "" && exists x :: HasUrls(urls, x) && y == TrimSpace(x) && IsDiscovered(upper, y)))
  {
    merged := configured;
    var seen := alreadySeen;
    for i := 0 to |order|
      invariant Distinct(merged) && (forall y :: y in seen <==> y in merged)
      invariant forall y :: y in merged <==> (y in configured ||
                  (y != "" && exists k :: 0 <= k < i && HasUrls(urls, order[k]) && y == TrimSpace(order[k]) && IsDiscovered(upper, y)))
    {
      var trimmed := TrimSpace(order[i]);
      if trimmed == "" || |urls[order[i]]| == 0 { continue; }
      if !IsDiscovered(upper, trimmed) { continue; }
      if trimmed in seen { continue; }
      seen := seen + {trimmed};
      merged := merged + [trimmed];
    }
  }

  /** The elements that pass, in order. */
  function Filter(xs: seq<Index>, keep: Index -> bool): seq<Index> {
    if xs == [] then [] else (if keep(xs[0]) then [xs[0]] else []) + Filter(xs[1..], keep)
  }

  lemma {:induction false} FilterKeeps(xs: seq<Index>, keep: Index -> bool)
    ensures forall x :: x in Filter(xs, keep) <==> x in xs && keep(x)
    ensures Distinct(xs) ==> Distinct(Filter(xs, keep))
  {
    if xs != [] {
      FilterKeeps(xs[1..], keep);
      assert forall x :: x in xs <==> x == xs[0] || x in xs[1..];
      if Distinct(xs) {
        assert xs[0] !in xs[1..];
      }
    }
  }

  function WithUrls(urls: Urls): Index -> bool { x => HasUrls(urls, x) }

  function NotIn(excluded: set<Index>): Index -> bool { x => x !in excluded }

  /** The sources one call considers: those with URLs, less the excluded ones; either restriction is dropped
      when it would leave nothing. */
  function Candidates(indexes: seq<Index>, urls: Urls, excluded: set<Index>): seq<Index> {
    var available := Filter(indexes, WithUrls(urls));
    var usable := if available == [] then indexes else available;
    var wanted := Filter(usable, NotIn(excluded));
    if wanted == [] then usable else wanted
  }

  predicate NoneHasUrls(indexes: seq<Index>, urls: Urls) { forall x :: x in indexes ==> !HasUrls(urls, x) }

  /** A source that is worth trying: it has URLs, or none has. */
  predicate Usable(indexes: seq<Index>, urls: Urls, y: Index) {
    y in indexes && (HasUrls(urls, y) || NoneHasUrls(indexes, urls))
  }

  /** The candidates are exactly the usable sources that are not excluded, or all usable sources if all are excluded. */
  lemma CandidatesAre(indexes: seq<Index>, urls: Urls, excluded: set<Index>)
    ensures forall y :: y in Candidates(indexes, urls, excluded) <==>
              Usable(indexes, urls, y) && (y !in excluded || forall z :: Usable(indexes, urls, z) ==> z in excluded)
  {
    var available := Filter(indexes, WithUrls(urls));
    var usable := if available == [] then indexes else available;
    var wanted := Filter(usable, NotIn(excluded));
    FilterKeeps(indexes, WithUrls(urls));
    FilterKeeps(usable, NotIn(excluded));
    if available == [] {
      assert NoneHasUrls(indexes, urls);
    } else {
      assert available[0] in available;
    }
    assert forall y :: y in usable <==> Usable(indexes, urls, y);
    assert forall y :: y in wanted <==> y in usable && y !in excluded;
    if wanted != [] {
      assert wanted[0] in wanted;
    }
  }

  lemma CandidatesAreDistinct(indexes: seq<Index>, urls: Urls, excluded: set<Index>)
    requires Distinct(indexes)
    ensures Distinct(Candidates(indexes, urls, excluded))
    ensures Candidates(indexes, urls, excluded) == [] <==> indexes == []
  {
    var available := Filter(indexes, WithUrls(urls));
    FilterKeeps(indexes, WithUrls(urls));
    FilterKeeps(if available == [] then indexes else available, NotIn(excluded));
  }

  /** How trying the URLs of one source ends; after a failure the request may turn out to be cancelled. */
  datatype Attempt = Works | Fails | FailsCancelled

  datatype Verdict = NoIndexes | CancelledBefore | Chosen(index: Index) | CancelledAt(index: Index) | NoAvailable

  /** The first element of the sorted list that is not done. */
  method FirstOpen(xs: seq<Index>, done: set<Index>, ghost less: (nat, Index, Index) -> bool, ghost t: nat)
    returns (x: Index)
    requires exists y :: y in xs && y !in done
    requires forall y :: y in xs ==> !less(t, y, y)
    ensures x in xs && x !in done
    ensures Sorts.Sorted(less, t, xs) ==> forall y :: y in xs && y !in done ==> !less(t, y, x)
  {
    var i := 0;
    while xs[i] in done
      invariant 0 <= i < |xs|
      invariant forall k :: 0 <= k < i ==> xs[k] in done
      invariant exists k :: i <= k < |xs| && xs[k] !in done
      decreases |xs| - i
    {
      i := i + 1;
    }
    x := xs[i];
    if Sorts.Sorted(less, t, xs) {
      forall y | y in xs && y !in done
        ensures !less(t, y, x)
      {
        var k :| 0 <= k < |xs| && xs[k] == y;
      }
    }
  }

  /** Pick number k was made from what was left, and was the best of it if the priorities held still. */
  ghost predicate BestPick(cands: seq<Index>, picks: seq<Index>, times: seq<nat>, clock: Clock, k: nat)
    requires k < |picks| && |times| == |picks| + 1
  {
    && picks[k] in cands && picks[k] !in picks[..k]
    && (times[k] <= times[k + 1] && Steady(clock, times[k], times[k + 1]) ==>
          forall y :: y in cands && y !in picks[..k] ==> !Better(Now(clock, times[k]), y, picks[k]))
  }

  /** What the best is: no other source that is left has more free slots, and of those with as many it is a number if one of them
      is, and the least one, or else the first in string order. */
  lemma BestPickIs(cands: seq<Index>, picks: seq<Index>, times: seq<nat>, clock: Clock, k: nat, y: Index)
    requires k < |picks| && |times| == |picks| + 1 && BestPick(cands, picks, times, clock, k)
    requires times[k] <= times[k + 1] && Steady(clock, times[k], times[k + 1])
    requires y in cands && y !in picks[..k] && y != picks[k]
    ensures var t, x := times[k], picks[k];
            && clock(t, y) <= clock(t, x)
            && (clock(t, y) == clock(t, x) ==>
                  && (Atoi(y).Some? ==> Atoi(x).Some? && Atoi(x).value <= Atoi(y).value)
                  && (Atoi(x).None? ==> Atoi(y).None? && Less(x, y)))
  {
    assert !Better(Now(clock, times[k]), y, picks[k]);
    LessIsTotal(picks[k], y);
  }

  /** A walk so far: distinct picks, each the best when it was made; `done` is the set of them. */
  ghost predicate Walked(cands: seq<Index>, picks: seq<Index>, times: seq<nat>, clock: Clock, done: set<Index>) {
    && Distinct(picks) && |times| == |picks| + 1 == |done| + 1
    && (forall x :: x in done <==> x in picks)
    && (forall x :: x in done ==> x in cands)
    && (forall k :: 0 <= k < |picks| ==> BestPick(cands, picks, times, clock, k))
  }

  /** Sorts what there is and takes the first source not done. */
  method PickNext(xs: seq<Index>, done: set<Index>, clock: Clock, t0: nat, ghost cands: seq<Index>)
    returns (ys: seq<Index>, index: Index, t: nat)
    requires multiset(xs) == multiset(cands) && Distinct(cands) && |done| < |cands|
    requires forall x :: x in done ==> x in cands
    ensures multiset(ys) == multiset(cands) && index in cands && index !in done && t0 <= t
    ensures Steady(clock, t0, t) ==> forall y :: y in cands && y !in done ==> !Better(Now(clock, t0), y, index)
  {
    ys, t := Sorts.SortSlice(xs, ByPriority(clock), t0);
    Sorts.SameMembers(ys, cands);
    Sorts.SameMembers(xs, cands);
    SomeAreLeft(cands, done);
    forall y
      ensures !ByPriority(clock)(t0, y, y)
    {
      BetterIsStrictWeakOrder(Now(clock, t0), y, y, y);
    }
    index := FirstOpen(ys, done, ByPriority(clock), t0);
    if Steady(clock, t0, t) {
      SteadyPrioritiesSort(clock, t0, t, xs);
      forall y | y in cands && y !in done
        ensures !Better(Now(clock, t0), y, index)
      {
        assert !ByPriority(clock)(t0, y, index);
      }
    }
  }

  /** What a walk over `cands` promises: distinct picks, each the best left when it was made, all but possibly
      the last one failing; it gives up only after trying every candidate. */
  ghost predicate Honest(cands: seq<Index>, urls: Urls, clock: Clock, attempt: (nat, Index) -> Attempt,
                         verdict: Verdict, picks: seq<Index>, times: seq<nat>)
  {
    && Distinct(picks) && |times| == |picks| + 1
    && (forall k :: 0 <= k < |picks| ==> BestPick(cands, picks, times, clock, k))
    && (forall k :: 0 <= k < |picks| - 1 ==> !Ends(urls, attempt, k, picks[k]))
    && match verdict
       case NoAvailable => multiset(picks) == multiset(cands) && forall k :: 0 <= k < |picks| ==> !Ends(urls, attempt, k, picks[k])
       case Chosen(x) => |picks| > 0 && x == picks[|picks| - 1] && HasUrls(urls, x) && attempt(|picks| - 1, x) == Works
       case CancelledAt(x) => |picks| > 0 && x == picks[|picks| - 1] && HasUrls(urls, x) && attempt(|picks| - 1, x) == FailsCancelled
       case NoIndexes => cands == [] && picks == []
       case CancelledBefore => cands != [] && picks == []
  }

  /** The next pick of a walk. */
  method PickAnother(xs: seq<Index>, done: set<Index>, clock: Clock, ghost cands: seq<Index>, ghost picks: seq<Index>,
                     times: seq<nat>)
    returns (ys: seq<Index>, index: Index, t: nat)
    requires multiset(xs) == multiset(cands) && Distinct(cands) && |done| < |cands|
    requires Walked(cands, picks, times, clock, done)
    ensures multiset(ys) == multiset(cands) && index !in done
    ensures Walked(cands, picks + [index], times + [t], clock, done + {index})
  {
    ys, index, t := PickNext(xs, done, clock, times[|times| - 1], cands);
    PicksGrow(cands, picks, times, clock, done, index, t);
  }

  /** One source: without URLs it fails. */
  method TryOne(urls: Urls, attempt: (nat, Index) -> Attempt, k: nat, x: Index) returns (result: Attempt)
    ensures result == if HasUrls(urls, x) then attempt(k, x) else Fails
  {
    if x !in urls { return Fails; }
    if |urls[x]| == 0 { return Fails; }
    result := attempt(k, x);
  }

  /** The loop of tryAllStreams. `attempt(k, x)` is how pick number k, of source x, turns out. `picks` lists the
      sources tried, `times` the clock before each sort and at the end. */
  method WalkCandidates(cands: seq<Index>, urls: Urls, clock: Clock, attempt: (nat, Index) -> Attempt)
    returns (verdict: Verdict, picks: seq<Index>, times: seq<nat>)
    requires Distinct(cands)
    ensures Honest(cands, urls, clock, attempt, verdict, picks, times)
    ensures verdict.NoAvailable? || verdict.Chosen? || verdict.CancelledAt?
  {
    var m3uIndexes := cands;
    picks, times := [], [0];
    var done: set<Index> := {};
    var initialCount := |m3uIndexes|;
    while |done| < initialCount
      invariant multiset(m3uIndexes) == multiset(cands) && Walked(cands, picks, times, clock, done)
      invariant forall k :: 0 <= k < |picks| ==> !Ends(urls, attempt, k, picks[k])
      decreases initialCount - |done|
    {
      var index, t;
      m3uIndexes, index, t := PickAnother(m3uIndexes, done, clock, cands, picks, times);
      done := done + {index};
      picks, times := picks + [index], times + [t];
      var result := TryOne(urls, attempt, |picks| - 1, index);
      if result == Fails { continue; }
      return if result == Works then Chosen(index) else CancelledAt(index), picks, times;
    }
    AllPicked(cands, picks, done);
    return NoAvailable, picks, times;
  }

  /** tryAllStreams, from the configured indexes, repeated or not; `merged` are those it makes of them. */
  method TryAllStreams(indexes: seq<Index>, urls: Urls, order: seq<Index>, upper: string -> string, excluded: set<Index>,
                       cancelled: bool, clock: Clock, attempt: (nat, Index) -> Attempt)
    returns (verdict: Verdict, picks: seq<Index>, times: seq<nat>, merged: seq<Index>)
    requires forall x :: x in order <==> x in urls
    ensures IsMerged(indexes, urls, upper, merged)
    ensures verdict == NoIndexes <==> merged == []
    ensures verdict == CancelledBefore <==> merged != [] && cancelled
    ensures Honest(Candidates(merged, urls, excluded), urls, clock, attempt, verdict, picks, times)
    ensures forall y :: y in picks ==>
              Usable(merged, urls, y) && (y !in excluded || forall z :: Usable(merged, urls, z) ==> z in excluded)
    ensures verdict == NoAvailable ==> forall y :: Usable(merged, urls, y) && y !in excluded ==> y in picks
    ensures verdict == NoAvailable && (forall z :: Usable(merged, urls, z) ==> z in excluded) ==>
              forall y :: Usable(merged, urls, y) ==> y in picks
  {
    merged := AppendDiscoveryIndexes(indexes, urls, order, upper);
    var m3uIndexes := Candidates(merged, urls, excluded);
    CandidatesAreDistinct(merged, urls, excluded);
    CandidatesAre(merged, urls, excluded);
    if m3uIndexes == [] { return NoIndexes, [], [0], merged; }
    if cancelled { return CancelledBefore, [], [0], merged; }
    verdict, picks, times := WalkCandidates(m3uIndexes, urls, clock, attempt);
    PicksAreCandidates(m3uIndexes, urls, clock, attempt, verdict, picks, times);
  }

  lemma PicksAreCandidates(cands: seq<Index>, urls: Urls, clock: Clock, attempt: (nat, Index) -> Attempt,
                           verdict: Verdict, picks: seq<Index>, times: seq<nat>)
    requires Honest(cands, urls, clock, attempt, verdict, picks, times)
    ensures forall y :: y in picks ==> y in cands
    ensures verdict == NoAvailable ==> forall y :: y in cands ==> y in picks
  {
    forall y | y in picks
      ensures y in cands
    {
      var k :| 0 <= k < |picks| && picks[k] == y;
      assert BestPick(cands, picks, times, clock, k);
    }
    if verdict == NoAvailable {
      Sorts.SameMembers(picks, cands);
    }
  }

  /** Pick k of source x ends the walk. */
  predicate Ends(urls: Urls, attempt: (nat, Index) -> Attempt, k: nat, x: Index) {
    HasUrls(urls, x) && attempt(k, x) != Fails
  }

  lemma {:induction false} DistinctSize(xs: seq<Index>, s: set<Index>)
    requires Distinct(xs) && forall x :: x in xs <==> x in s
    ensures |xs| == |s|
  {
    if xs == [] {
      assert s == {};
    } else {
      assert xs[0] !in xs[1..];
      assert forall x :: x in xs <==> x == xs[0] || x in xs[1..];
      DistinctSize(xs[1..], s - {xs[0]});
    }
  }

  lemma SomeAreLeft(cands: seq<Index>, done: set<Index>)
    requires Distinct(cands) && |done| < |cands| && forall x :: x in done ==> x in cands
    ensures exists y :: y in cands && y !in done
  {
    if forall y :: y in cands ==> y in done {
      DistinctSize(cands, done);
    }
  }

  lemma AllPicked(cands: seq<Index>, picks: seq<Index>, done: set<Index>)
    requires Distinct(cands) && Distinct(picks) && (forall x :: x in done <==> x in picks)
    requires (forall x :: x in done ==> x in cands) && |done| >= |cands|
    ensures multiset(picks) == multiset(cands)
  {
    var all := set x | x in cands;
    DistinctSize(cands, all);
    SubsetOfSameSize(done, all);
    forall x
      ensures multiset(picks)[x] == multiset(cands)[x]
    {
      assert x in picks <==> x in cands;
      DistinctCount(picks, x);
      DistinctCount(cands, x);
    }
  }

  lemma SubsetOfSameSize(a: set<Index>, b: set<Index>)
    requires a <= b && |a| >= |b|
    ensures a == b
  {
    if x :| x in b && x !in a {
      assert a <= b - {x};
      SubsetSize(a, b - {x});
    }
  }

  lemma {:induction false} SubsetSize(a: set<Index>, b: set<Index>)
    requires a <= b
    ensures |a| <= |b|
  {
    if x :| x in a {
      SubsetSize(a - {x}, b - {x});
    }
  }

  lemma {:induction false} DistinctCount(xs: seq<Index>, x: Index)
    requires Distinct(xs)
    ensures multiset(xs)[x] == if x in xs then 1 else 0
  {
    if xs != [] {
      assert xs == [xs[0]] + xs[1..];
      assert xs[0] !in xs[1..];
      DistinctCount(xs[1..], x);
    }
  }

  lemma PicksGrow(cands: seq<Index>, picks: seq<Index>, times: seq<nat>, clock: Clock, done: set<Index>,
                  index: Index, t: nat)
    requires Walked(cands, picks, times, clock, done) && index in cands && index !in done
    requires times[|picks|] <= t && Steady(clock, times[|picks|], t) ==>
               forall y :: y in cands && y !in done ==> !Better(Now(clock, times[|picks|]), y, index)
    ensures Walked(cands, picks + [index], times + [t], clock, done + {index})
  {
    var picks', times' := picks + [index], times + [t];
    forall k | 0 <= k <= |picks|
      ensures BestPick(cands, picks', times', clock, k)
    {
      assert picks'[..k] == picks[..k];
      if k < |picks| {
        assert BestPick(cands, picks, times, clock, k);
      } else {
        assert picks[..k] == picks;
      }
    }
  }
}
