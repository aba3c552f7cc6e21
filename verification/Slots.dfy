/** Slots per source: how many streams may use a source at once, and that every slot taken is given back
    (store/concurrency.go, and its three users in proxy/stream). */
module Slots {
  import opened BufferPools

  type Source = string
  type Caller = nat

  const TWO_31 := 0x8000_0000
  const TWO_32 := 0x1_0000_0000

  /** Conversion of a 64-bit integer to int32: the low 32 bits, read as a signed number. */
  function Int32(x: int): (r: int)
    ensures -TWO_31 <= r < TWO_31 && (x - r) % TWO_32 == 0
  {
    var low := x % TWO_32;
    if low < TWO_31 then low else low - TWO_32
  }

  /** What the Compute of UpdateConcurrency does to a count under a limit, and whether it grants a slot. */
  function Updated(count: int, max: int, incr: bool): (int, bool) {
    if !incr then (if count > 0 then count - 1 else count, true)
    else if count < Int32(max) then (count + 1, true)
    else (count, false)
  }

  class ConcurrencyManager {
    var count: map<Source, int>
    var maxCache: map<Source, int>

    ghost predicate Valid()
      reads this
    {
      forall m :: m in count ==> 0 <= count[m] < TWO_31
    }

    function Count(m: Source): int
      reads this
    {
      if m in count then count[m] else 0
    }

    constructor ()
      ensures Valid() && count == map[] && maxCache == map[]
    {
      count, maxCache := map[], map[];
    }

    /** The first answer for a source is kept; `configured` is what the configuration says now. */
    method GetMaxConcurrency(m: Source, configured: int) returns (max: int)
      modifies this`maxCache
      ensures max == if m in old(maxCache) then old(maxCache)[m] else configured
      ensures maxCache == old(maxCache)[m := max]
    {
      if m in maxCache {
        return maxCache[m];
      }
      max := configured;
      maxCache := maxCache[m := max];
    }

    method GetConcurrencyStatus(m: Source, configured: int) returns (current: int, max: int, priority: int)
      modifies this`maxCache
      ensures m in maxCache && max == maxCache[m] && current == Count(m) && priority + current == max
    {
      max := GetMaxConcurrency(m, configured);
      current := 0;
      if m in count {
        current := count[m];
      }
      priority := max - current;
    }

    method UpdateConcurrency(m: Source, incr: bool, configured: int) returns (success: bool)
      requires Valid()
      modifies this
      ensures Valid() && m in maxCache
      ensures (Count(m), success) == Updated(old(Count(m)), maxCache[m], incr)
      ensures incr ==> (success <==> old(Count(m)) < Int32(maxCache[m]))
      ensures incr ==> Count(m) == old(Count(m)) + if success then 1 else 0
      ensures !incr ==> success && Count(m) == if old(Count(m)) == 0 then 0 else old(Count(m)) - 1
      ensures maxCache == old(maxCache)[m := if m in old(maxCache) then old(maxCache)[m] else configured]
      ensures forall k :: k != m ==> Count(k) == old(Count(k))
    {
      var max := GetMaxConcurrency(m, configured);
      var c := if m in count then count[m] else 0;
      if incr {
        if c < Int32(max) {
          c := c + 1;
          success := true;
        } else {
          success := false;
        }
      } else {
        if c > 0 {
          c := c - 1;
        }
        success := true;
      }
      count := count[m := c];
    }
  }

  /** A caller that is asking about a source or using it: it read the configuration after the cache had no
      answer and is about to store it; it knows the limit; it holds a slot until its deferred release. */
  datatype Use = Looking(m: Source, max: int) | Knowing(m: Source, max: int) | Holding(m: Source)

  datatype System = System(count: map<Source, int>, cache: map<Source, int>, uses: map<Caller, Use>) {
    function Count(m: Source): int { if m in count then count[m] else 0 }
  }

  datatype Step =
    | Hit(c: Caller, m: Source)
    | Miss(c: Caller, m: Source, configured: int)
    | Store(c: Caller)
    | Acquire(c: Caller)
    | Drop(c: Caller)      // only asked: a status or a priority
    | Release(c: Caller)

  function Init(): System { System(map[], map[], map[]) }

  predicate Enabled(s: System, e: Step)
  {
    match e
    case Hit(c, m) => c !in s.uses && m in s.cache
    case Miss(c, m, configured) => c !in s.uses && m !in s.cache && 1 <= configured
    case Store(c) => c in s.uses && s.uses[c].Looking?
    case Acquire(c) => c in s.uses && s.uses[c].Knowing?
    case Drop(c) => c in s.uses && s.uses[c].Knowing?
    case Release(c) => c in s.uses && s.uses[c].Holding?
  }

  function Next(s: System, e: Step): System
    requires Enabled(s, e)
  {
    match e
    case Hit(c, m) => s.(uses := s.uses[c := Knowing(m, s.cache[m])])
    case Miss(c, m, configured) => s.(uses := s.uses[c := Looking(m, configured)])
    case Store(c) =>
      var u := s.uses[c];
      s.(cache := s.cache[u.m := u.max], uses := s.uses[c := Knowing(u.m, u.max)])
    case Acquire(c) =>
      var u := s.uses[c];
      var (count, granted) := Updated(s.Count(u.m), u.max, true);
      if granted then s.(count := s.count[u.m := count], uses := s.uses[c := Holding(u.m)])
      else s.(uses := s.uses - {c})
    case Drop(c) => s.(uses := s.uses - {c})
    case Release(c) =>
      var m := s.uses[c].m;
      s.(count := s.count[m := Updated(s.Count(m), 0, false).0], uses := s.uses - {c})
  }

  /** The callers between a successful acquire and their release. */
  function Holders(s: System, m: Source): set<Caller> {
    set c | c in s.uses && s.uses[c] == Holding(m)
  }

  ghost predicate Conserved(s: System) { forall m :: s.Count(m) == |Holders(s, m)| }

  lemma CountFollowsHolders(s: System, e: Step, m: Source)
    requires s.Count(m) == |Holders(s, m)| && Enabled(s, e)
    ensures Next(s, e).Count(m) == |Holders(Next(s, e), m)|
    ensures e.Release? && s.uses[e.c].m == m ==> s.Count(m) > 0
  {
    HoldersChange(s, e, m);
    assert e.Release? && s.uses[e.c].m == m ==> e.c in Holders(s, m);
  }

  lemma HoldersChange(s: System, e: Step, m: Source)
    requires Enabled(s, e)
    ensures Holders(Next(s, e), m) ==
            if e.Release? && s.uses[e.c].m == m then Holders(s, m) - {e.c}
            else if e.Acquire? && s.uses[e.c].m == m && e.c in Next(s, e).uses then Holders(s, m) + {e.c}
            else Holders(s, m)
    ensures e.Acquire? ==> e.c !in Holders(s, m)
  {
  }

  lemma StepConserves(s: System, e: Step)
    requires Conserved(s) && Enabled(s, e)
    ensures Conserved(Next(s, e))
    ensures e.Release? ==> s.Count(s.uses[e.c].m) > 0
  {
    forall m
      ensures Next(s, e).Count(m) == |Holders(Next(s, e), m)|
      ensures e.Release? && s.uses[e.c].m == m ==> s.Count(m) > 0
    {
      CountFollowsHolders(s, e, m);
    }
  }

  ghost predicate IsRun(states: seq<System>, steps: seq<Step>)
  {
    && |states| == |steps| + 1
    && forall i {:trigger steps[i]} :: 0 <= i < |steps| ==>
         Enabled(states[i], steps[i]) && states[i + 1] == Next(states[i], steps[i])
  }

  /** In every interleaving the count of a source is the number of its holders, and no release finds it at zero. */
  lemma {:induction false} SlotsAreConserved(states: seq<System>, steps: seq<Step>, i: nat)
    requires IsRun(states, steps) && states[0] == Init() && i < |states|
    ensures forall m :: states[i].Count(m) == |Holders(states[i], m)|
    ensures i < |steps| && steps[i].Release? ==> states[i].Count(states[i].uses[steps[i].c].m) > 0
  {
    if i == 0 {
      assert forall m :: Holders(states[0], m) == {};
    } else {
      SlotsAreConserved(states, steps, i - 1);
      StepConserves(states[i - 1], steps[i - 1]);
    }
    if i < |steps| {
      StepConserves(states[i], steps[i]);
    }
  }

  /** Every limit known for `m` is one of `limits`. */
  ghost predicate Within(s: System, m: Source, limits: set<int>)
  {
    && (m in s.cache ==> s.cache[m] in limits)
    && (forall c :: c in s.uses && !s.uses[c].Holding? && s.uses[c].m == m ==> s.uses[c].max in limits)
    && (s.Count(m) == 0 || exists k :: k in limits && s.Count(m) <= Int32(k))
  }

  lemma StepStaysWithin(s: System, e: Step, m: Source, limits: set<int>)
    requires Within(s, m, limits) && Enabled(s, e) && s.Count(m) >= 0
    requires e.Miss? && e.m == m ==> e.configured in limits
    ensures Within(Next(s, e), m, limits)
  {
    var t := Next(s, e);
    if e.Acquire? && s.uses[e.c].m == m && s.Count(m) < Int32(s.uses[e.c].max) {
      assert s.uses[e.c].max in limits && t.Count(m) <= Int32(s.uses[e.c].max);
    } else if t.Count(m) != 0 {
      var k :| k in limits && s.Count(m) <= Int32(k);
      assert t.Count(m) <= Int32(k);
    }
  }

  /** In every interleaving the count stays within the largest limit that some lookup has found configured. */
  lemma {:induction false} CountStaysWithinLimits(states: seq<System>, steps: seq<Step>, i: nat, m: Source,
                                                  limits: set<int>)
    requires IsRun(states, steps) && states[0] == Init() && i < |states|
    requires forall k :: 0 <= k < i && steps[k].Miss? && steps[k].m == m ==> steps[k].configured in limits
    ensures Within(states[i], m, limits) && states[i].Count(m) >= 0
  {
    SlotsAreConserved(states, steps, i);
    if i > 0 {
      CountStaysWithinLimits(states, steps, i - 1, m, limits);
      StepStaysWithin(states[i - 1], steps[i - 1], m, limits);
    }
  }

  /** With a configured limit that does not change and fits int32, the count never exceeds the cached limit. */
  lemma CountStaysWithinCache(states: seq<System>, steps: seq<Step>, i: nat, m: Source, limit: int)
    requires IsRun(states, steps) && states[0] == Init() && i < |states|
    requires forall k :: 0 <= k < i && steps[k].Miss? && steps[k].m == m ==> steps[k].configured == limit
    requires 1 <= limit < TWO_31
    ensures 0 <= states[i].Count(m) <= limit
    ensures m in states[i].cache ==> states[i].cache[m] == limit
  {
    CountStaysWithinLimits(states, steps, i, m, {limit});
  }

  /** The limits that lookups of m find in the configuration, at whatever time, are among these. */
  ghost predicate FindsOnly(steps: seq<Step>, m: Source, limits: set<int>) {
    forall k :: 0 <= k < |steps| && steps[k].Miss? && steps[k].m == m ==> steps[k].configured in limits
  }

  ghost predicate CacheBoundsCount(states: seq<System>, m: Source) {
    forall i :: 0 <= i < |states| && m in states[i].cache ==> states[i].Count(m) <= states[i].cache[m]
  }

  /** In every run whose lookups find only these limits, the count stays within the cached limit. */
  ghost predicate AlwaysBounded(m: Source, limits: set<int>) {
    forall states, steps {:trigger IsRun(states, steps)} ::
      IsRun(states, steps) && states[0] == Init() && FindsOnly(steps, m, limits) ==> CacheBoundsCount(states, m)
  }

  lemma OneMoreStep(states: seq<System>, steps: seq<Step>, e: Step) returns (states': seq<System>, steps': seq<Step>)
    requires IsRun(states, steps) && Enabled(states[|steps|], e)
    ensures IsRun(states', steps') && steps' == steps + [e] && states'[0] == states[0]
    ensures states' == states + [Next(states[|steps|], e)]
  {
    states', steps' := states + [Next(states[|steps|], e)], steps + [e];
    forall i | 0 <= i < |steps'|
      ensures Enabled(states'[i], steps'[i]) && states'[i + 1] == Next(states'[i], steps'[i])
    {
      if i < |steps| {
        assert steps'[i] == steps[i];
      }
    }
  }

  /** n callers use the source under the larger limit, while caller 1 has yet to store the smaller one. */
  ghost predicate IsCrowd(s: System, m: Source, lo: int, hi: int, n: nat) {
    && m in s.cache && s.cache[m] == hi && s.Count(m) == n && 1 in s.uses && s.uses[1] == Looking(m, lo)
    && forall c :: c in s.uses ==> c <= n
  }

  lemma FirstOfCrowd(m: Source, lo: int, hi: int) returns (states: seq<System>, steps: seq<Step>)
    requires 1 <= lo < hi < TWO_31
    ensures IsRun(states, steps) && states[0] == Init() && FindsOnly(steps, m, {lo, hi})
    ensures IsCrowd(states[|steps|], m, lo, hi, 1)
  {
    states, steps := [Init()], [];
    states, steps := OneMoreStep(states, steps, Miss(0, m, hi));
    states, steps := OneMoreStep(states, steps, Miss(1, m, lo));
    states, steps := OneMoreStep(states, steps, Store(0));
    states, steps := OneMoreStep(states, steps, Acquire(0));
  }

  lemma {:induction false} Crowd(m: Source, lo: int, hi: int, n: nat) returns (states: seq<System>, steps: seq<Step>)
    requires 1 <= lo < hi < TWO_31 && 1 <= n <= hi
    ensures IsRun(states, steps) && states[0] == Init() && FindsOnly(steps, m, {lo, hi})
    ensures IsCrowd(states[|steps|], m, lo, hi, n)
  {
    if n == 1 {
      states, steps := FirstOfCrowd(m, lo, hi);
    } else {
      states, steps := Crowd(m, lo, hi, n - 1);
      states, steps := OneMoreStep(states, steps, Hit(n, m));
      states, steps := OneMoreStep(states, steps, Acquire(n));
    }
  }

  /** Any two limits that two first lookups find can race: the later store leaves the cache below the count. */
  lemma AnyTwoLimitsRace(m: Source, lo: int, hi: int) returns (states: seq<System>, steps: seq<Step>)
    requires 1 <= lo < hi < TWO_31
    ensures IsRun(states, steps) && states[0] == Init() && FindsOnly(steps, m, {lo, hi})
    ensures m in states[|steps|].cache && states[|steps|].Count(m) == lo + 1 > states[|steps|].cache[m] == lo
  {
    states, steps := Crowd(m, lo, hi, lo + 1);
    states, steps := OneMoreStep(states, steps, Store(1));
  }

  /** For instance, when the configured limit changes from 2 to 1 between two first lookups. */
  lemma RacingLookupsCanLowerTheCache() returns (states: seq<System>, steps: seq<Step>)
    ensures IsRun(states, steps) && states[0] == Init() && FindsOnly(steps, "1", {1, 2})
    ensures states[|steps|].Count("1") == 2 && "1" in states[|steps|].cache && states[|steps|].cache["1"] == 1
  {
    states, steps := AnyTwoLimitsRace("1", 1, 2);
  }

  /** The count stays within the cached limit in every run if and only if lookups of the source find no two different
      limits. */
  lemma CacheBoundsCountIff(m: Source, limits: set<int>)
    requires forall k :: k in limits ==> 1 <= k < TWO_31
    ensures AlwaysBounded(m, limits) <==> forall a, b :: a in limits && b in limits ==> a == b
  {
    forall a, b | a in limits && b in limits && a < b
      ensures !AlwaysBounded(m, limits)
    {
      var states, steps := AnyTwoLimitsRace(m, a, b);
      assert FindsOnly(steps, m, limits) && !CacheBoundsCount(states, m);
    }
    if forall a, b :: a in limits && b in limits ==> a == b {
      forall states, steps | IsRun(states, steps) && states[0] == Init() && FindsOnly(steps, m, limits)
        ensures CacheBoundsCount(states, m)
      {
        OneLimitBounds(states, steps, m, limits);
      }
    }
  }

  lemma OneLimitBounds(states: seq<System>, steps: seq<Step>, m: Source, limits: set<int>)
    requires forall a, b :: a in limits && b in limits ==> a == b
    requires forall k :: k in limits ==> 1 <= k < TWO_31
    requires IsRun(states, steps) && states[0] == Init() && FindsOnly(steps, m, limits)
    ensures CacheBoundsCount(states, m)
  {
    forall i | 0 <= i < |states| && m in states[i].cache
      ensures states[i].Count(m) <= states[i].cache[m]
    {
      CountStaysWithinLimits(states, steps, i, m, limits);
    }
  }

  /** A free source admits a caller if and only if the limit, cut down to 32 bits, is positive. */
  lemma FreeSourceAdmits(s: System, c: Caller)
    requires Conserved(s) && Enabled(s, Acquire(c)) && Holders(s, s.uses[c].m) == {}
    ensures c in Next(s, Acquire(c)).uses <==> 0 < s.uses[c].max % TWO_32 < TWO_31
  {
    assert s.Count(s.uses[c].m) == 0;
  }

  /** A limit of 2^31 becomes negative, so nobody is admitted to a free source. */
  lemma HugeLimitAdmitsNobody(m: Source)
    ensures var s := System(map[], map[m := TWO_31], map[0 := Knowing(m, TWO_31)]);
            Conserved(s) && Enabled(s, Acquire(0)) && 0 !in Next(s, Acquire(0)).uses
  {
    var s := System(map[], map[m := TWO_31], map[0 := Knowing(m, TWO_31)]);
    assert forall k :: Holders(s, k) == {};
  }
}
