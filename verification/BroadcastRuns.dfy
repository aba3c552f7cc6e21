/** Every interleaving of one writer side and any number of readers on the shared stream buffer, one step per
    region under the coordinator's lock (proxy/stream/buffer/coordinator.go, proxy/stream/media_stream.go). */
module BroadcastRuns {
  import opened BufferPools
  import opened Broadcast

  type ReaderId = nat

  /** `pos` is the cell the client will read from next. `from` is set while a ReadChunks call is under way, from
      its first region to its last. `delivered` lists the write numbers handed to the client so far.
      `anchor` is the write count at which `pos` (or `from`) was the writer's cell. */
  datatype Reader = Reader(pos: nat, from: Option<nat>, anchor: int, delivered: seq<nat>)

  datatype System = System(core: Core, readers: map<ReaderId, Reader>)

  datatype Step =
    | Write(p: Payload)
    | Close
    | Register
    | Decrement
    | Drain
    | Clear
    | Attach(id: ReaderId)
    | Begin(id: ReaderId)
    | Finish(id: ReaderId)

  function Init(n: nat): System { System(Core(n, [], 0, 0, Active, 0), map[]) }

  predicate Enabled(s: System, e: Step)
  {
    match e
    case Write(_) => s.core.state == Active
    case Attach(id) => id !in s.readers
    case Begin(id) => id in s.readers && s.readers[id].from == None
    case Finish(id) => id in s.readers && s.readers[id].from.Some? && !s.core.CaughtUp(s.readers[id].from.value)
    case _ => true
  }

  /** The write numbers lo + 1, ..., hi. */
  function Numbers(lo: nat, hi: nat): seq<nat>
    requires lo <= hi
  {
    seq(hi - lo, i requires 0 <= i < hi - lo => lo + i + 1)
  }

  function Previous(n: nat, a: nat): nat
    requires a < n
  {
    if a == 0 then n - 1 else a - 1
  }

  ghost predicate Fits(s: System)
  {
    && s.core.Valid()
    && forall id :: id in s.readers ==> s.readers[id].pos < s.core.n && (s.readers[id].from.Some? ==> s.readers[id].from.value < s.core.n)
  }

  function Next(s: System, e: Step): System
    requires Fits(s) && Enabled(s, e)
  {
    match e
    case Write(p) => s.(core := s.core.Write(p))
    case Close => s.(core := s.core.Close())
    case Register => s.(core := s.core.Register())
    case Decrement => s.(core := s.core.Decrement())
    case Drain => s.(core := s.core.Drain())
    case Clear => s.(core := s.core.Clear())
    case Attach(id) => s.(readers := s.readers[id := Reader(Previous(s.core.n, s.core.head), None, |s.core.written| - 1, [])])
    case Begin(id) =>
      var r := s.readers[id];
      var from := s.core.Start(r.pos);
      s.(readers := s.readers[id := r.(from := Some(from), anchor := if from == r.pos then r.anchor else |s.core.written|)])
    case Finish(id) =>
      var r := s.readers[id];
      var news := Numbers(s.core.FirstVisible(r.from.value), |s.core.written|);
      s.(readers := s.readers[id := Reader(s.core.head, None, |s.core.written|, r.delivered + news)])
  }

  ghost predicate Increasing(xs: seq<nat>) { forall i, j :: 0 <= i < j < |xs| ==> xs[i] < xs[j] }

  /** Where a reader stands, and that it has been given nothing twice, out of order or ahead of its place. */
  ghost predicate ReaderInv(c: Core, r: Reader)
    requires c.n >= 1
  {
    && r.anchor <= |c.written|
    && (if r.from.Some? then r.from.value else r.pos) == r.anchor % c.n
    && r.pos < c.n
    && Increasing(r.delivered)
    && (forall k :: k in r.delivered ==> 1 <= k <= |c.written| && k <= r.anchor)
  }

  ghost predicate Inv(s: System)
  {
    s.core.InStep() && forall id :: id in s.readers ==> ReaderInv(s.core, s.readers[id])
  }

  lemma PreviousIsOneBehind(w: nat, n: nat)
    requires n >= 1
    ensures (w - 1) % n == Previous(n, w % n)
  {
    var q, r := w / n, w % n;
    if r == 0 {
      assert w - 1 == n * (q - 1) + (n - 1);
      UniqueRemainder(w - 1, n, q - 1, n - 1);
    } else {
      assert w - 1 == n * q + (r - 1);
      UniqueRemainder(w - 1, n, q, r - 1);
    }
  }

  /** What a finishing read shows lies strictly after everything the reader has had. */
  lemma VisibleIsNew(c: Core, pos: nat, anchor: int)
    requires c.InStep() && anchor <= |c.written| && pos == anchor % c.n
    ensures pos < c.n && c.FirstVisible(pos) >= anchor
    ensures |c.written| - anchor < c.n && c.cleared <= anchor ==> c.FirstVisible(pos) == anchor
  {
    DistanceIsLapRemainder(c, anchor);
    RemainderFits(|c.written| - anchor, c.n);
  }

  lemma RemainderFits(x: nat, n: nat)
    requires n >= 1
    ensures x % n <= x && (x < n ==> x % n == x)
  {
    if x < n {
      UniqueRemainder(x, n, 0, x);
    }
  }

  lemma AppendNumbers(xs: seq<nat>, lo: nat, hi: nat)
    requires Increasing(xs) && lo <= hi && forall k :: k in xs ==> k <= lo
    ensures Increasing(xs + Numbers(lo, hi))
    ensures forall k :: k in xs + Numbers(lo, hi) ==> k in xs || lo < k <= hi
  {
    var ys := xs + Numbers(lo, hi);
    forall i, j | 0 <= i < j < |ys|
      ensures ys[i] < ys[j]
    {
      if i < |xs| <= j {
        assert xs[i] in xs;
      }
    }
  }

  lemma StepKeepsInv(s: System, e: Step)
    requires Inv(s) && Enabled(s, e)
    ensures Fits(s) && Inv(Next(s, e))
  {
    var c := s.core;
    match e
    case Write(p) => WriteKeepsStep(c, p);
    case Attach(id) => PreviousIsOneBehind(|c.written|, c.n);
    case Finish(id) =>
      var r := s.readers[id];
      VisibleIsNew(c, r.from.value, r.anchor);
      AppendNumbers(r.delivered, c.FirstVisible(r.from.value), |c.written|);
    case _ =>
  }

  /** A run: `states[i]` goes to `states[i + 1]` by `steps[i]`. */
  ghost predicate IsRun(states: seq<System>, steps: seq<Step>)
  {
    && |states| == |steps| + 1
    && forall i {:trigger steps[i]} :: 0 <= i < |steps| ==>
         Fits(states[i]) && Enabled(states[i], steps[i]) && states[i + 1] == Next(states[i], steps[i])
  }

  lemma {:induction false} RunKeepsInv(states: seq<System>, steps: seq<Step>, n: nat, i: nat)
    requires n >= 1 && IsRun(states, steps) && states[0] == Init(n) && i < |states|
    ensures Inv(states[i]) && states[i].core.n == n
  {
    if i > 0 {
      RunKeepsInv(states, steps, n, i - 1);
      StepKeepsInv(states[i - 1], steps[i - 1]);
    }
  }

  /** Whatever the writer, the other clients and the clears do, and however often the reader is lapped, the
      write numbers that one client gets are strictly increasing: nothing twice, nothing out of order. */
  lemma DeliveredInOrder(states: seq<System>, steps: seq<Step>, n: nat, i: nat, id: ReaderId)
    requires n >= 1 && IsRun(states, steps) && states[0] == Init(n) && i < |states| && id in states[i].readers
    ensures Increasing(states[i].readers[id].delivered)
    ensures forall k :: k in states[i].readers[id].delivered ==> 1 <= k <= |states[i].core.written|
  {
    RunKeepsInv(states, steps, n, i);
  }

  /** What one finishing read hands out: never anything from before the last clear, and, when the clear is no
      obstacle, exactly the last (w - r) mod n writes, where r is the write count at which the reader last stood
      on the writer's cell and w the current one. */
  lemma ReadGetsLapRemainder(s: System, id: ReaderId)
    requires Inv(s) && Enabled(s, Finish(id))
    ensures Fits(s) && id in Next(s, Finish(id)).readers
    ensures var c, r, r' := s.core, s.readers[id], Next(s, Finish(id)).readers[id];
            var first := |c.written| - (|c.written| - r.anchor) % c.n;
            && r.delivered <= r'.delivered
            && (forall k :: k in r'.delivered[|r.delivered|..] ==> c.cleared < k <= |c.written|)
            && (c.cleared <= first ==> r'.delivered == r.delivered + Numbers(first, |c.written|))
            && r'.anchor == |c.written| && r'.pos == c.head
  {
    var c, r := s.core, s.readers[id];
    DistanceIsLapRemainder(c, r.anchor);
    var r' := Next(s, Finish(id)).readers[id];
    assert r'.delivered[|r.delivered|..] == Numbers(c.FirstVisible(r.from.value), |c.written|);
  }

  /** How many writes come before what a reader finds whose cell was the writer's at write count `anchor`, whatever
      number of laps ago that was. */
  function LapStart(c: Core, anchor: int): int
    requires c.n >= 1
  {
    |c.written| - (|c.written| - anchor) % c.n
  }

  lemma LapStartFits(c: Core, anchor: int)
    requires c.InStep() && anchor <= |c.written|
    ensures anchor <= LapStart(c, anchor) <= |c.written|
    ensures anchor % c.n < c.n && c.Distance(anchor % c.n) == |c.written| - LapStart(c, anchor)
    ensures |c.written| - anchor < c.n <==> LapStart(c, anchor) == anchor
  {
    DistanceIsLapRemainder(c, anchor);
    VisibleIsNew(c.(cleared := 0), anchor % c.n, anchor);
    if |c.written| - anchor < c.n {
      UniqueRemainder(|c.written| - anchor, c.n, 0, |c.written| - anchor);
    }
  }

  /** The staleness test moves a reader exactly if its cell was wiped and there have been more than n writes: laps
      alone never do. */
  lemma ReaderStaysIff(c: Core, pos: nat, anchor: int)
    requires c.InStep() && anchor <= |c.written| && pos == anchor % c.n
    ensures pos < c.n
    ensures c.Start(pos) == pos <==> c.cleared <= LapStart(c, anchor) || |c.written| <= c.n
  {
    LapStartFits(c, anchor);
    if c.Distance(pos) > 0 {
      assert c.Age(pos) == c.Distance(pos);
    }
  }

  /** While nothing is cleared that a client has not passed, other steps leave its anchor alone, for any number of
      laps. */
  lemma StepKeepsAnchor(s: System, e: Step, id: ReaderId, anchor: nat)
    requires Inv(s) && Enabled(s, e) && id in s.readers && s.readers[id].anchor == anchor
    requires s.core.cleared <= anchor && !e.Clear? && e != Finish(id)
    ensures Fits(s) && id in Next(s, e).readers && Next(s, e).readers[id].anchor == anchor
    ensures Next(s, e).readers[id].delivered == s.readers[id].delivered
    ensures s.core.written <= Next(s, e).core.written && Next(s, e).core.cleared == s.core.cleared
  {
    if e == Begin(id) {
      ReaderStaysIff(s.core, s.readers[id].pos, anchor);
      LapStartFits(s.core, anchor);
    }
  }

  ghost predicate Quiet(steps: seq<Step>, i: nat, j: nat, id: ReaderId)
    requires j <= |steps|
  {
    forall k :: i <= k < j ==> !steps[k].Clear? && steps[k] != Finish(id)
  }

  lemma {:induction false} AnchorStays(states: seq<System>, steps: seq<Step>, n: nat, i: nat, j: nat, id: ReaderId)
    requires n >= 1 && IsRun(states, steps) && states[0] == Init(n) && i < j <= |steps|
    requires steps[i] == Finish(id) && Quiet(steps, i + 1, j, id)
    ensures id in states[j].readers && id in states[i + 1].readers
    ensures states[i].core.written <= states[j].core.written && states[j].core.cleared == states[i].core.cleared
    ensures states[j].readers[id].anchor == |states[i].core.written|
    ensures states[j].readers[id].delivered == states[i + 1].readers[id].delivered
    decreases j
  {
    RunKeepsInv(states, steps, n, i);
    if j == i + 1 {
      ReadGetsLapRemainder(states[i], id);
    } else {
      AnchorStays(states, steps, n, i, j - 1, id);
      RunKeepsInv(states, steps, n, j - 1);
      StepKeepsAnchor(states[j - 1], steps[j - 1], id, |states[i].core.written|);
    }
  }

  /** Two reads of one client with no clear between them, at write counts r and w, whatever lies between: the second
      one hands out exactly the last (w - r) mod n writes. */
  lemma ReadsAnyLapsApart(states: seq<System>, steps: seq<Step>, n: nat, i: nat, j: nat, id: ReaderId)
    requires n >= 1 && IsRun(states, steps) && states[0] == Init(n) && i < j < |steps|
    requires steps[i] == Finish(id) && steps[j] == Finish(id) && Quiet(steps, i + 1, j, id)
    ensures id in states[i + 1].readers && id in states[j].readers && id in states[j + 1].readers
    ensures var r, w := |states[i].core.written|, |states[j].core.written|;
            && r <= w && (w - r) % n <= w
            && states[j + 1].readers[id].delivered == states[i + 1].readers[id].delivered + Numbers(w - (w - r) % n, w)
            && Fits(states[j]) && states[j].readers[id].from.Some?
            && states[j].core.Visible(states[j].readers[id].from.value) == states[j].core.written[w - (w - r) % n..]
  {
    AnchorStays(states, steps, n, i, j, id);
    RunKeepsInv(states, steps, n, i);
    RunKeepsInv(states, steps, n, j);
    FinishAnyLapsOn(states[j], id);
  }

  lemma FinishAnyLapsOn(s: System, id: ReaderId)
    requires Inv(s) && Enabled(s, Finish(id)) && s.core.cleared <= s.readers[id].anchor
    ensures Fits(s) && id in Next(s, Finish(id)).readers
    ensures var r, first := s.readers[id], LapStart(s.core, s.readers[id].anchor);
            && 0 <= first <= |s.core.written|
            && Next(s, Finish(id)).readers[id].delivered == r.delivered + Numbers(first, |s.core.written|)
            && s.core.Visible(r.from.value) == s.core.written[first..]
  {
    LapStartFits(s.core, s.readers[id].anchor);
  }

  /** The broadcast promise: if fewer than n writes and no clear separate two reads of one client, the second
      hands it exactly those writes, in write order. */
  lemma NothingMissedWithinALap(states: seq<System>, steps: seq<Step>, n: nat, i: nat, j: nat, id: ReaderId)
    requires n >= 1 && IsRun(states, steps) && states[0] == Init(n) && i < j < |steps|
    requires steps[i] == Finish(id) && steps[j] == Finish(id) && Quiet(steps, i + 1, j, id)
    requires |states[j].core.written| - |states[i].core.written| < n
    ensures id in states[j].readers && id in states[i + 1].readers && id in states[j + 1].readers
    ensures states[i].core.written <= states[j].core.written
    ensures states[j + 1].readers[id].delivered ==
            states[i + 1].readers[id].delivered + Numbers(|states[i].core.written|, |states[j].core.written|)
    ensures Fits(states[j]) && states[j].readers[id].from.Some?
    ensures states[j].core.Visible(states[j].readers[id].from.value) == states[j].core.written[|states[i].core.written|..]
  {
    AnchorStays(states, steps, n, i, j, id);
    ReadsAnyLapsApart(states, steps, n, i, j, id);
    var lag := |states[j].core.written| - |states[i].core.written|;
    UniqueRemainder(lag, n, 0, lag);
  }

  // What a client misses over a whole run

  function Max(a: int, b: int): int { if a < b then b else a }

  /** The count of writes behind a client that came when the first `wiped` writes were already cleared: those it has
      been past, and those that were gone when it came. */
  function Due(s: System, id: ReaderId, wiped: nat): nat
    requires id in s.readers
  {
    Max(s.readers[id].anchor, wiped)
  }

  /** Beginning a read, the client is not moved past writes that it has not had; finishing it, it has not been lapped,
      and nothing was cleared that it has not had. */
  ghost predicate KeepsUp(s: System, e: Step, id: ReaderId, wiped: nat)
    requires s.core.n >= 1 && id in s.readers
  {
    var w, first := |s.core.written|, LapStart(s.core, s.readers[id].anchor);
    && (e == Begin(id) && s.core.n < w && first < s.core.cleared ==> Due(s, id, wiped) == w)
    && (e == Finish(id) ==> first <= Due(s, id, wiped) && s.core.cleared <= Due(s, id, wiped))
  }

  /** One step hands a client no more than what becomes due to it, and exactly that if and only if it keeps up. */
  lemma StepIsGaplessIff(s: System, e: Step, id: ReaderId, wiped: nat)
    requires Inv(s) && Enabled(s, e) && id in s.readers && wiped <= s.core.cleared
    ensures Fits(s) && id in Next(s, e).readers
    ensures var a, b := Due(s, id, wiped), Due(Next(s, e), id, wiped);
            var had, has := s.readers[id].delivered, Next(s, e).readers[id].delivered;
            && a <= b && (if KeepsUp(s, e, id, wiped) then has == had + Numbers(a, b) else |has| - |had| < b - a)
  {
    var r := s.readers[id];
    LapStartFits(s.core, r.anchor);
    assert r.delivered + Numbers(Due(s, id, wiped), Due(s, id, wiped)) == r.delivered;
    if e == Begin(id) {
      ReaderStaysIff(s.core, r.pos, r.anchor);
    }
  }

  lemma NumbersJoin(before: seq<nat>, a: nat, b: nat, c: nat)
    requires a <= b <= c
    ensures before + Numbers(a, b) + Numbers(b, c) == before + Numbers(a, c)
  {
    assert Numbers(a, b) + Numbers(b, c) == Numbers(a, c);
  }

  /** From `had` to `has` nothing between the counts a and b is missing if `all`, and something is if not. */
  ghost predicate Handed(had: seq<nat>, has: seq<nat>, a: nat, b: nat, all: bool) {
    a <= b && if all then has == had + Numbers(a, b) else |has| - |had| < b - a
  }

  lemma HandedJoin(had: seq<nat>, mid: seq<nat>, has: seq<nat>, a: nat, m: nat, b: nat, all: bool, all': bool)
    requires Handed(had, mid, a, m, all) && Handed(mid, has, m, b, all')
    ensures Handed(had, has, a, b, all && all')
  {
    NumbersJoin(had, a, m, b);
  }

  ghost predicate KeepsUpAt(states: seq<System>, steps: seq<Step>, k: nat, id: ReaderId, wiped: nat)
    requires k < |steps| < |states|
  {
    states[k].core.n >= 1 && id in states[k].readers && KeepsUp(states[k], steps[k], id, wiped)
  }

  ghost predicate AlwaysKeepsUp(states: seq<System>, steps: seq<Step>, i: nat, j: nat, id: ReaderId)
    requires i <= j <= |steps| < |states|
  {
    forall k {:trigger KeepsUpAt(states, steps, k, id, states[i].core.cleared)} :: i <= k < j ==>
      KeepsUpAt(states, steps, k, id, states[i].core.cleared)
  }

  lemma KeepsUpToTheLast(states: seq<System>, steps: seq<Step>, i: nat, j: nat, id: ReaderId)
    requires i < j <= |steps| < |states|
    ensures AlwaysKeepsUp(states, steps, i, j, id) <==>
            AlwaysKeepsUp(states, steps, i, j - 1, id) && KeepsUpAt(states, steps, j - 1, id, states[i].core.cleared)
  {
  }

  /** Over a whole run, from any time since the client came: it is handed every write that was not wiped before, each
      once and in order, up to where it stands, if it keeps up at all its reads; otherwise fewer. */
  lemma {:induction false} DeliveredWithoutGapsIff(states: seq<System>, steps: seq<Step>, n: nat, i: nat, j: nat, id: ReaderId)
    requires n >= 1 && IsRun(states, steps) && states[0] == Init(n) && i <= j < |states| && id in states[i].readers
    ensures id in states[j].readers && states[i].core.cleared <= states[j].core.cleared
    ensures Due(states[j], id, states[i].core.cleared) <= |states[j].core.written|
    ensures Handed(states[i].readers[id].delivered, states[j].readers[id].delivered,
                   Due(states[i], id, states[i].core.cleared), Due(states[j], id, states[i].core.cleared),
                   AlwaysKeepsUp(states, steps, i, j, id))
    decreases j
  {
    RunKeepsInv(states, steps, n, j);
    if i == j {
      var had, a := states[i].readers[id].delivered, Due(states[i], id, states[i].core.cleared);
      assert had + Numbers(a, a) == had;
    } else {
      DeliveredWithoutGapsIff(states, steps, n, i, j - 1, id);
      RunKeepsInv(states, steps, n, j - 1);
      var s, t, wiped := states[j - 1], states[j], states[i].core.cleared;
      assert t == Next(s, steps[j - 1]);
      StepIsGaplessIff(s, steps[j - 1], id, wiped);
      KeepsUpToTheLast(states, steps, i, j, id);
      HandedJoin(states[i].readers[id].delivered, s.readers[id].delivered, t.readers[id].delivered,
                 Due(states[i], id, wiped), Due(s, id, wiped), Due(t, id, wiped),
                 AlwaysKeepsUp(states, steps, i, j - 1, id), KeepsUp(s, steps[j - 1], id, wiped));
    }
  }

  /** The client that starts the writer comes right after a clear, one cell back. Beginning its first read less than a
      lap later, it is moved past all that was written meanwhile exactly if there have ever been more than n writes. */
  lemma StarterIsMovedIff(s: System, id: ReaderId)
    requires Inv(s) && Enabled(s, Begin(id)) && s.readers[id].anchor == s.core.cleared - 1
    requires s.core.cleared < |s.core.written| && |s.core.written| - s.readers[id].anchor < s.core.n
    ensures Fits(s) && id in Next(s, Begin(id)).readers
    ensures Due(Next(s, Begin(id)), id, s.core.cleared) ==
            if s.core.n < |s.core.written| then |s.core.written| else s.core.cleared
  {
    ReaderStaysIff(s.core, s.readers[id].pos, s.readers[id].anchor);
    LapStartFits(s.core, s.readers[id].anchor);
  }

  /** Such a client does lose what was written after it came: here on a ring of three cells write number 4. */
  lemma StarterLosesFirstChunk(p: Payload) returns (states: seq<System>, steps: seq<Step>)
    requires !p.IsError()
    ensures IsRun(states, steps) && states[0] == Init(3)
    ensures steps == [Write(p), Write(p), Write(p), Clear, Attach(0), Write(p), Begin(0), Write(p), Finish(0)]
    ensures 0 in states[9].readers && states[9].readers[0].delivered == [5]
  {
    steps := [Write(p), Write(p), Write(p), Clear, Attach(0), Write(p), Begin(0), Write(p), Finish(0)];
    ClearedAndAttached(p);
    FirstReadAfterAWrite(p);
    states := seq(10, k requires 0 <= k < 10 => Scene(p, k));
    forall k | 0 <= k < 9
      ensures Goes(states[k], steps[k], states[k + 1])
    {
    }
  }

  ghost predicate Goes(s: System, e: Step, t: System) { Fits(s) && Enabled(s, e) && t == Next(s, e) }

  function Scene(p: Payload, k: nat): System {
    if k < 4 then System(Core(3, [p, p, p][..k], 0, k % 3, Active, 0), map[])
    else if k == 4 then System(Core(3, [p, p, p], 3, 0, Active, 0), map[])
    else if k == 5 then System(Core(3, [p, p, p], 3, 0, Active, 0), map[0 := Reader(2, None, 2, [])])
    else if k == 6 then System(Core(3, [p, p, p, p], 3, 1, Active, 0), map[0 := Reader(2, None, 2, [])])
    else if k == 7 then System(Core(3, [p, p, p, p], 3, 1, Active, 0), map[0 := Reader(2, Some(1), 4, [])])
    else if k == 8 then System(Core(3, [p, p, p, p, p], 3, 2, Active, 0), map[0 := Reader(2, Some(1), 4, [])])
    else System(Core(3, [p, p, p, p, p], 3, 2, Active, 0), map[0 := Reader(2, None, 5, [5])])
  }

  lemma ClearedAndAttached(p: Payload)
    requires !p.IsError()
    ensures forall k {:trigger Scene(p, k)} :: 0 <= k < 3 ==> Goes(Scene(p, k), Write(p), Scene(p, k + 1))
    ensures Goes(Scene(p, 3), Clear, Scene(p, 4)) && Goes(Scene(p, 4), Attach(0), Scene(p, 5))
    ensures Scene(p, 0) == Init(3)
  {
    forall k | 0 <= k < 3
      ensures Goes(Scene(p, k), Write(p), Scene(p, k + 1))
    {
      assert [p, p, p][..k] + [p] == [p, p, p][..k + 1];
    }
  }

  lemma FirstReadAfterAWrite(p: Payload)
    requires !p.IsError()
    ensures Goes(Scene(p, 5), Write(p), Scene(p, 6)) && Goes(Scene(p, 6), Begin(0), Scene(p, 7))
    ensures Goes(Scene(p, 7), Write(p), Scene(p, 8)) && Goes(Scene(p, 8), Finish(0), Scene(p, 9))
  {
    assert [p, p, p] + [p] == [p, p, p, p] && [p, p, p, p] + [p] == [p, p, p, p, p];
    assert [] + Numbers(4, 5) == [5];
  }

  /** Registering revives a stopped stream only when nobody is registered. */
  predicate Revives(s: System, e: Step) { e == Register && s.core.state != Active && s.core.clients == 0 }

  ghost predicate NobodyRevives(states: seq<System>, steps: seq<Step>, i: nat, j: nat)
    requires j <= |steps| < |states|
  {
    forall k {:trigger steps[k]} :: i <= k < j ==> !Revives(states[k], steps[k])
  }

  /** After an error was written nothing more is written until a client revives the stream, so whoever reads
      later finds the error at the very end, after all the data. */
  lemma {:induction false} ErrorIsLast(states: seq<System>, steps: seq<Step>, i: nat, j: nat, p: Payload)
    requires IsRun(states, steps) && i < j <= |steps|
    requires steps[i] == Write(p) && p.IsError()
    requires NobodyRevives(states, steps, i + 1, j)
    ensures states[j].core.state != Active
    ensures states[j].core.written == states[i].core.written + [p]
    decreases j
  {
    assert states[j] == Next(states[j - 1], steps[j - 1]);
    if j > i + 1 {
      ErrorIsLast(states, steps, i, j - 1, p);
      StoppedStays(states[j - 1], steps[j - 1]);
    }
  }

  lemma StoppedStays(s: System, e: Step)
    requires Fits(s) && Enabled(s, e) && s.core.state != Active && !Revives(s, e)
    ensures Next(s, e).core.state != Active && Next(s, e).core.written == s.core.written
  {
  }

  /** The bytes of the writes with these numbers. */
  function BytesOf(written: seq<Payload>, ks: seq<nat>): Bytes
    requires forall i :: 0 <= i < |ks| ==> 1 <= ks[i] <= |written|
  {
    if ks == [] then [] else BytesOf(written, ks[..|ks| - 1]) + written[ks[|ks| - 1] - 1].data
  }

  lemma {:induction false} BytesOfNumbers(written: seq<Payload>, lo: nat, hi: nat)
    requires lo <= hi <= |written|
    ensures BytesOf(written, Numbers(lo, hi)) == Flatten(written[lo..hi])
    decreases hi
  {
    if lo < hi {
      BytesOfNumbers(written, lo, hi - 1);
      assert Numbers(lo, hi)[..hi - lo - 1] == Numbers(lo, hi - 1);
      assert written[lo..hi][..hi - lo - 1] == written[lo..hi - 1];
    }
  }

  /** What a read shows are the bytes of the writes that it delivers. */
  lemma ReadShowsItsBytes(s: System, id: ReaderId)
    requires Inv(s) && Enabled(s, Finish(id))
    ensures Fits(s) && id in Next(s, Finish(id)).readers
    ensures var c, first := s.core, s.core.FirstVisible(s.readers[id].from.value);
            && Next(s, Finish(id)).readers[id].delivered == s.readers[id].delivered + Numbers(first, |c.written|)
            && Flatten(Data(c.Visible(s.readers[id].from.value))) == BytesOf(c.written, Numbers(first, |c.written|))
  {
    var c, first := s.core, s.core.FirstVisible(s.readers[id].from.value);
    DataKeepsEveryByte(c.written[first..]);
    BytesOfNumbers(c.written, first, |c.written|);
    assert c.written[first..] == c.written[first..|c.written|];
  }

  ghost predicate NoReadWithin(steps: seq<Step>, i: nat, j: nat, id: ReaderId)
    requires j <= |steps|
  {
    forall k :: i <= k < j ==> steps[k] != Finish(id)
  }

  /** Between its reads a client that keeps up stays where it is. */
  lemma {:induction false} DueStays(states: seq<System>, steps: seq<Step>, n: nat, i: nat, m: nat, j: nat, id: ReaderId)
    requires n >= 1 && IsRun(states, steps) && states[0] == Init(n) && i <= m <= j <= |steps| && id in states[i].readers
    requires NoReadWithin(steps, m, j, id) && AlwaysKeepsUp(states, steps, i, j, id)
    ensures id in states[m].readers && id in states[j].readers
    ensures Due(states[j], id, states[i].core.cleared) == Due(states[m], id, states[i].core.cleared)
    decreases j
  {
    DeliveredWithoutGapsIff(states, steps, n, i, m, id);
    if m < j {
      DueStays(states, steps, n, i, m, j - 1, id);
      DeliveredWithoutGapsIff(states, steps, n, i, j - 1, id);
      RunKeepsInv(states, steps, n, j - 1);
      assert KeepsUpAt(states, steps, j - 1, id, states[i].core.cleared);
      StepIsGaplessIff(states[j - 1], steps[j - 1], id, states[i].core.cleared);
    }
  }

  /** Over a whole run of reads: a client that keeps up is handed every write up to an error, in order, and the first
      read after the error reports it. */
  lemma AllDataThenError(states: seq<System>, steps: seq<Step>, n: nat, i: nat, m: nat, j: nat, id: ReaderId, p: Payload)
    requires n >= 1 && IsRun(states, steps) && states[0] == Init(n) && i <= m < j < |steps| && id in states[i].readers
    requires steps[m] == Write(p) && p.IsError() && NobodyRevives(states, steps, m + 1, j)
    requires steps[j] == Finish(id) && NoReadWithin(steps, m + 1, j, id) && AlwaysKeepsUp(states, steps, i, j + 1, id)
    ensures states[j].core.written == states[m].core.written + [p]
    ensures id in states[j].readers && id in states[j + 1].readers
    ensures var due := Due(states[i], id, states[i].core.cleared);
            && due <= |states[m].core.written|
            && states[j + 1].readers[id].delivered == states[i].readers[id].delivered + Numbers(due, |states[j].core.written|)
            && BytesOf(states[j].core.written, Numbers(due, |states[j].core.written|)) ==
               Flatten(states[m].core.written[due..]) + p.data
    ensures Fits(states[j]) && states[j].readers[id].from.Some?
    ensures LastError(states[j].core.Visible(states[j].readers[id].from.value)) == Some(p.(data := []))
  {
    ErrorIsLast(states, steps, m, j, p);
    DeliveredWithoutGapsIff(states, steps, n, i, m, id);
    LastReadStandsAt(states, steps, n, i, m, j, id);
    var due := Due(states[i], id, states[i].core.cleared);
    LastOfVisible(states[j].core, states[j].readers[id].from.value, states[m].core.written, p);
    BytesToTheLast(states[m].core.written, states[j].core.written, p, due);
  }

  /** The first read after a write finds it, and after that read nothing is due any more. */
  lemma LastReadStandsAt(states: seq<System>, steps: seq<Step>, n: nat, i: nat, m: nat, j: nat, id: ReaderId)
    requires n >= 1 && IsRun(states, steps) && states[0] == Init(n) && i <= m < j < |steps| && id in states[i].readers
    requires steps[m].Write? && steps[j] == Finish(id) && NoReadWithin(steps, m + 1, j, id)
    requires AlwaysKeepsUp(states, steps, i, j + 1, id)
    ensures id in states[j].readers && id in states[j + 1].readers && states[j].readers[id].from.Some?
    ensures Fits(states[j]) && states[j].core.FirstVisible(states[j].readers[id].from.value) <= |states[m].core.written|
    ensures var due := Due(states[i], id, states[i].core.cleared);
            && due <= |states[j].core.written|
            && states[j + 1].readers[id].delivered == states[i].readers[id].delivered + Numbers(due, |states[j].core.written|)
  {
    DeliveredWithoutGapsIff(states, steps, n, i, m, id);
    DeliveredWithoutGapsIff(states, steps, n, i, j, id);
    DeliveredWithoutGapsIff(states, steps, n, i, j + 1, id);
    RunKeepsInv(states, steps, n, j);
    DueStays(states, steps, n, i, m, j, id);
    WritesOnlyGrow(states, steps, m, j);
    assert KeepsUpAt(states, steps, j, id, states[i].core.cleared);
    FinishKeepingUp(states[j], id, states[i].core.cleared);
  }

  lemma FinishKeepingUp(s: System, id: ReaderId, wiped: nat)
    requires Inv(s) && Enabled(s, Finish(id)) && wiped <= s.core.cleared && KeepsUp(s, Finish(id), id, wiped)
    ensures Fits(s) && s.core.FirstVisible(s.readers[id].from.value) == Due(s, id, wiped)
    ensures id in Next(s, Finish(id)).readers && Due(Next(s, Finish(id)), id, wiped) == |s.core.written|
  {
    LapStartFits(s.core, s.readers[id].anchor);
  }

  lemma SnocFlatten(ps: seq<Payload>, p: Payload)
    ensures Flatten(ps + [p]) == Flatten(ps) + p.data
  {
    assert (ps + [p])[..|ps|] == ps;
  }

  lemma BytesToTheLast(before: seq<Payload>, after: seq<Payload>, p: Payload, lo: nat)
    requires lo <= |before| && after == before + [p]
    ensures BytesOf(after, Numbers(lo, |after|)) == Flatten(before[lo..]) + p.data
  {
    BytesOfNumbers(after, lo, |after|);
    SliceToTheLast(before, after, p, lo);
    SnocFlatten(before[lo..], p);
  }

  lemma SliceToTheLast(before: seq<Payload>, after: seq<Payload>, p: Payload, lo: nat)
    requires lo <= |before| && after == before + [p]
    ensures after[lo..|after|] == before[lo..] + [p]
  {
  }

  lemma LastOfVisible(c: Core, from: nat, before: seq<Payload>, p: Payload)
    requires c.Valid() && from < c.n && c.written == before + [p] && p.IsError() && c.FirstVisible(from) <= |before|
    ensures LastError(c.Visible(from)) == Some(p.(data := []))
  {
    var shown := before[c.FirstVisible(from)..];
    assert c.Visible(from) == shown + [p];
    SnocData(shown, p);
  }

  lemma {:induction false} WritesOnlyGrow(states: seq<System>, steps: seq<Step>, i: nat, j: nat)
    requires IsRun(states, steps) && i <= j < |states|
    ensures states[i].core.written <= states[j].core.written
    decreases j
  {
    if i < j {
      WritesOnlyGrow(states, steps, i, j - 1);
      assert states[j] == Next(states[j - 1], steps[j - 1]);
    }
  }
}
