/** What the shared stream buffer promises, on values: the log of all successful writes, how much of it a
    clear has wiped, and which part of it a reader standing on a given ring cell still finds
    (proxy/stream/buffer/coordinator.go). The ring itself is the class in Coordinator.dfy. */
module Broadcast {
  import opened BufferPools

  datatype State = Active | Draining | Closed

  datatype Payload = Payload(data: Bytes, error: Option<string>, status: int, timestamp: int) {
    predicate IsError() { error.Some? || status != 0 }
  }

  const EMPTY := Payload([], None, 0, 0)

  /** The cell after `a` on a ring of `n` cells. */
  function Next(n: nat, a: nat): nat { if a + 1 == n then 0 else a + 1 }

  /** How many steps lead from cell `a` of a ring of `n` cells to cell `b`. */
  function Ahead(n: nat, a: nat, b: nat): nat
    requires a < n && b < n
  {
    if a <= b then b - a else b - a + n
  }

  /** One cell of the ring: its chunk's content and write number (0 when never written or reset). */
  datatype Slot = Slot(payload: Payload, seqNo: nat)

  /** `written[k]` is write number k + 1; writes numbered up to `cleared` were wiped by a clear; `head` is
      the cell that the next write goes to. */
  datatype Core = Core(n: nat, written: seq<Payload>, cleared: nat, head: nat, state: State, clients: int) {

    ghost predicate Valid() { head < n && cleared <= |written| }

    /** Every write moved the writer one cell on, starting from cell 0. */
    ghost predicate InStep() { Valid() && head == |written| % n }

    /** How many cells the writer is ahead of `pos`. */
    function Distance(pos: nat): nat
      requires head < n && pos < n
    {
      Ahead(n, pos, head)
    }

    /** How many writes ago the cell was last written, counting the one just done as 1. */
    function Age(i: nat): nat
      requires head < n && i < n
    {
      if i < head then head - i else head - i + n
    }

    function SlotAt(i: nat): Slot
      requires Valid() && i < n
    {
      var age := Age(i);
      if age <= |written| - cleared then Slot(written[|written| - age], |written| - age + 1) else Slot(EMPTY, 0)
    }

    function Write(p: Payload): Core {
      if state != Active then this
      else this.(written := written + [p], head := Next(n, head), state := if p.IsError() then Draining else Active)
    }

    function Clear(): Core { this.(cleared := |written|) }

    function Close(): Core { this.(state := Closed) }

    function WriteError(p: Payload): Core { Write(p).Close() }

    /** A stream that stopped while nobody listens becomes active again. */
    function Register(): Core {
      this.(state := if state != Active && clients == 0 then Active else state, clients := clients + 1)
    }

    function Decrement(): Core { this.(clients := clients - 1) }

    function Drain(): Core { this.(state := Draining) }

    function Unregister(): Core {
      var c := Decrement();
      if c.clients == 0 then c.Drain().Clear() else c
    }

    /** A reader whose cell holds too old a write number is moved to the writer's cell. */
    function Start(pos: nat): nat
      requires Valid() && pos < n
    {
      if SlotAt(pos).seqNo < |written| - n then head else pos
    }

    predicate CaughtUp(pos: nat)
    {
      pos == head && state == Active
    }

    /** The index of the first write that a reader standing on `pos` still finds. */
    function FirstVisible(pos: nat): (k: nat)
      requires Valid() && pos < n
      ensures cleared <= k <= |written|
    {
      if |written| - Distance(pos) < cleared then cleared else |written| - Distance(pos)
    }

    function Visible(pos: nat): seq<Payload>
      requires Valid() && pos < n
    {
      written[FirstVisible(pos)..]
    }
  }

  /** The data chunks a client gets from a run of writes: empty ones are skipped. */
  function Data(ps: seq<Payload>): seq<Payload> {
    if ps == [] then []
    else
      var last := ps[|ps| - 1];
      Data(ps[..|ps| - 1]) + (if |last.data| > 0 then [Payload(last.data, None, 0, last.timestamp)] else [])
  }

  /** The error a client gets from a run of writes: the last one in it. */
  function LastError(ps: seq<Payload>): Option<Payload> {
    if ps == [] then None
    else
      var last := ps[|ps| - 1];
      if last.IsError() then Some(last.(data := [])) else LastError(ps[..|ps| - 1])
  }

  lemma SnocData(ps: seq<Payload>, p: Payload)
    ensures Data(ps + [p]) == Data(ps) + (if |p.data| > 0 then [Payload(p.data, None, 0, p.timestamp)] else [])
    ensures LastError(ps + [p]) == if p.IsError() then Some(p.(data := [])) else LastError(ps)
  {
    assert (ps + [p])[..|ps|] == ps;
  }

  function Flatten(ps: seq<Payload>): Bytes {
    if ps == [] then [] else Flatten(ps[..|ps| - 1]) + ps[|ps| - 1].data
  }

  /** Skipping empty chunks loses no byte. */
  lemma {:induction false} DataKeepsEveryByte(ps: seq<Payload>)
    ensures Flatten(Data(ps)) == Flatten(ps)
    ensures forall p :: p in Data(ps) ==> |p.data| > 0 && !p.IsError()
  {
    if ps != [] {
      var front, last := ps[..|ps| - 1], ps[|ps| - 1];
      DataKeepsEveryByte(front);
      var p := Payload(last.data, None, 0, last.timestamp);
      if |last.data| > 0 {
        assert Data(ps) == Data(front) + [p];
        assert (Data(front) + [p])[..|Data(front)|] == Data(front);
      } else {
        assert Data(ps) == Data(front);
        assert Flatten(front) + last.data == Flatten(front);
      }
    }
  }

  /** What a reader that set out at `from` has passed when it reaches `current`. */
  function Passed(c: Core, from: nat, current: nat): seq<Payload>
    requires c.Valid() && from < c.n && current < c.n
  {
    var lo, hi := c.FirstVisible(from), |c.written| - c.Distance(current);
    if hi <= lo then [] else c.written[lo..hi]
  }

  lemma PassStep(c: Core, from: nat, current: nat)
    requires c.Valid() && from < c.n && current < c.n && current != c.head
    requires Ahead(c.n, from, current) < c.Distance(from)
    ensures Ahead(c.n, from, Next(c.n, current)) == if Next(c.n, current) == from then 0 else Ahead(c.n, from, current) + 1
    ensures Next(c.n, current) != from && Next(c.n, current) < c.n
    ensures c.Distance(Next(c.n, current)) == c.Distance(current) - 1 && c.Age(current) == c.Distance(current)
  {
  }

  lemma PassedGrows(c: Core, from: nat, current: nat)
    requires c.Valid() && from < c.n && current < c.n && current != c.head
    requires Ahead(c.n, from, current) < c.Distance(from)
    ensures Next(c.n, current) < c.n
    ensures Passed(c, from, Next(c.n, current)) ==
            if c.Age(current) <= |c.written| - c.cleared then Passed(c, from, current) + [c.SlotAt(current).payload]
            else Passed(c, from, current)
  {
    PassStep(c, from, current);
  }

  /** Passing one cell adds its content to what was passed; a cell never written or wiped adds nothing. */
  lemma PassCell(c: Core, from: nat, current: nat)
    requires c.Valid() && from < c.n && current < c.n && current != c.head
    requires Ahead(c.n, from, current) < c.Distance(from)
    ensures Ahead(c.n, from, Next(c.n, current)) == if Next(c.n, current) == from then 0 else Ahead(c.n, from, current) + 1
    ensures Next(c.n, current) != from
    ensures c.Distance(Next(c.n, current)) == c.Distance(current) - 1
    ensures var p := c.SlotAt(current).payload;
            && Data(Passed(c, from, Next(c.n, current))) ==
               Data(Passed(c, from, current)) + (if |p.data| > 0 then [Payload(p.data, None, 0, p.timestamp)] else [])
            && LastError(Passed(c, from, Next(c.n, current))) ==
               (if p.IsError() then Some(p.(data := [])) else LastError(Passed(c, from, current)))
  {
    PassStep(c, from, current);
    PassedGrows(c, from, current);
    SnocData(Passed(c, from, current), c.SlotAt(current).payload);
    assert Data(Passed(c, from, current)) + [] == Data(Passed(c, from, current));
  }

  lemma NextCell(w: int, n: nat)
    requires n >= 1
    ensures (w + 1) % n == Next(n, w % n)
  {
    var q, r := w / n, w % n;
    if r + 1 == n {
      assert w + 1 == n * (q + 1);
      UniqueRemainder(w + 1, n, q + 1, 0);
    } else {
      assert w + 1 == n * q + (r + 1);
      UniqueRemainder(w + 1, n, q, r + 1);
    }
  }

  lemma UniqueRemainder(x: int, n: nat, q: int, r: nat)
    requires n >= 1 && r < n && x == n * q + r
    ensures x % n == r && x / n == q
  {
    var d := x / n - q;
    assert n * (x / n) + x % n == x;
    assert n * d == r - x % n by {
      assert n * d == n * (x / n) - n * q;
    }
    assert d >= 1 ==> n * d >= n;
    assert d <= -1 ==> n * d + n <= 0;
  }

  /** Standing on the cell of write count `r`, the writer is (w - r) mod n cells ahead. */
  lemma DistanceIsLapRemainder(c: Core, r: int)
    requires c.InStep()
    ensures 0 <= r % c.n < c.n
    ensures c.Distance(r % c.n) == (|c.written| - r) % c.n
  {
    var w, n := |c.written|, c.n;
    var d := c.Distance(r % n);
    var q := w / n - r / n;
    assert w == n * (w / n) + w % n && r == n * (r / n) + r % n;
    assert n * q == n * (w / n) - n * (r / n);
    if r % n <= w % n {
      UniqueRemainder(w - r, n, q, d);
    } else {
      assert n * (q - 1) == n * q - n;
      UniqueRemainder(w - r, n, q - 1, d);
    }
  }

  lemma WriteKeepsStep(c: Core, p: Payload)
    requires c.InStep()
    ensures c.Write(p).InStep()
  {
    NextCell(|c.written|, c.n);
  }

  /** A write replaces exactly the writer's cell. */
  lemma WriteHitsHead(c: Core, p: Payload, i: nat)
    requires c.Valid() && c.state == Active && i < c.n
    ensures c.Write(p).Valid()
    ensures c.Write(p).SlotAt(i) == if i == c.head then Slot(p, |c.written| + 1) else c.SlotAt(i)
  {
    assert c.Write(p).Age(i) == if i == c.head then 1 else c.Age(i) + 1;
  }

  /** After an error every reader finds it, as the last one, unless its cell is the one after the error: that reader is a
      whole lap behind and finds nothing. */
  lemma ErrorIsSeenIff(c: Core, p: Payload, pos: nat)
    requires c.Valid() && c.state == Active && p.IsError() && pos < c.n
    ensures c.WriteError(p).Valid()
    ensures LastError(c.WriteError(p).Visible(pos)) == Some(p.(data := [])) <==> pos != Next(c.n, c.head)
    ensures pos == Next(c.n, c.head) ==> c.WriteError(p).Visible(pos) == []
  {
    var c' := c.WriteError(p);
    var k := c'.FirstVisible(pos);
    if pos != Next(c.n, c.head) {
      assert c'.Visible(pos) == c.written[k..] + [p];
      SnocData(c.written[k..], p);
    }
  }

  /** `cells` is what the ring of `c` holds, cell by cell. */
  ghost predicate IsRing(c: Core, cells: seq<Slot>)
  {
    c.Valid() && |cells| == c.n && forall i {:trigger c.SlotAt(i)} :: 0 <= i < c.n ==> cells[i] == c.SlotAt(i)
  }

  lemma RingAfterWrite(c: Core, p: Payload, cells: seq<Slot>)
    requires IsRing(c, cells) && c.state == Active
    ensures IsRing(c.Write(p), cells[c.head := Slot(p, |c.written| + 1)])
  {
    var c', cells' := c.Write(p), cells[c.head := Slot(p, |c.written| + 1)];
    forall i | 0 <= i < c'.n
      ensures cells'[i] == c'.SlotAt(i)
    {
      WriteHitsHead(c, p, i);
    }
  }

  lemma RingIgnoresLife(c: Core, state: State, clients: int, cells: seq<Slot>)
    requires IsRing(c, cells)
    ensures IsRing(c.(state := state, clients := clients), cells)
  {
    var c' := c.(state := state, clients := clients);
    forall i | 0 <= i < c'.n
      ensures cells[i] == c'.SlotAt(i)
    {
      assert cells[i] == c.SlotAt(i);
    }
  }

  lemma RingAfterClear(c: Core, cells: seq<Slot>)
    requires c.Valid() && |cells| == c.n && forall i :: 0 <= i < c.n ==> cells[i] == Slot(EMPTY, 0)
    ensures IsRing(c.Clear(), cells)
  {
  }

  /** The cell on which a given write landed holds that write or a later one that landed on it, or was cleared:
      what a cell holds is always the last write to it. */
  lemma {:induction false} SlotHoldsLastWrite(c: Core, i: nat, k: nat)
    requires c.InStep() && i < c.n
    requires k < |c.written| && k % c.n == i
    requires forall j :: k < j < |c.written| ==> j % c.n != i
    ensures c.SlotAt(i) == if k >= c.cleared then Slot(c.written[k], k + 1) else Slot(EMPTY, 0)
  {
    var w, n := |c.written|, c.n;
    var age := c.Age(i);
    DistanceIsLapRemainder(c, k);
    assert w - k <= n by {
      UniqueRemainder(k + n, n, k / n + 1, i);
    }
    assert c.Distance(i) == (w - k) % n;
    if w - k < n {
      UniqueRemainder(w - k, n, 0, w - k);
    } else {
      UniqueRemainder(n, n, 1, 0);
    }
    assert age == w - k;
  }
}
