/** The shared stream buffer as the program keeps it: a ring of chunk objects whose byte buffers are swapped
    in and out and come from a shared pool. Each method is one region under the coordinator's lock, and is
    proved against the log of Broadcast.dfy (proxy/stream/buffer/coordinator.go). */
module Coordinator {
  import opened BufferPools
  import opened Broadcast

  class StreamCoordinator {
    const slots: seq<ChunkData>   // the ring's cells; a cell's chunk object never changes
    const pool: BufferPool
    var head: nat                 // the cell the next write goes to
    var writeSeq: nat
    var state: State
    var clientCount: int
    ghost const cellOf: map<ChunkData, nat>  // where each chunk object of the ring stands
    ghost var owner: map<ByteBuffer, nat>    // the buffers of the ring, each with the one cell that owns it
    ghost var log: Core                      // what the buffer promises its readers
    ghost var cells: seq<Slot>               // what each cell holds

    static ghost function Content(c: ChunkData): Slot
      requires c.buffer != null
      reads c, c.buffer
    {
      Slot(Payload(c.buffer.data, c.error, c.status, c.timestamp), c.seqNo)
    }

    static ghost predicate Holds(c: ChunkData, s: Slot)
      reads c, c.buffer
    {
      c.buffer != null && Content(c) == s
    }

    /** Every buffer of the ring has exactly one owner, and is not in the pool. */
    ghost predicate OwnsBuffers()
      reads this, pool, slots
    {
      && (forall i :: 0 <= i < |slots| ==> slots[i] in cellOf && cellOf[slots[i]] == i)
      && (forall i :: 0 <= i < |slots| ==> var b := slots[i].buffer; b != null && b in owner && owner[b] == i)
      && (forall b :: b in owner ==> b in pool.lent)
      && (forall b {:trigger owner[b]} :: b in owner ==> owner[b] < |slots| && slots[owner[b]].buffer == b)
    }

    ghost predicate Valid()
      reads this, pool, pool.free, slots, owner.Keys
    {
      && pool.Valid()
      && OwnsBuffers()
      && IsRing(log, cells)
      && log.n == |slots| && log.head == head && log.state == state && log.clients == clientCount
      && |log.written| == writeSeq
      && (forall i :: 0 <= i < |slots| ==> Holds(slots[i], cells[i]))
    }

    /** The buffers in callers' hands: handed out by the pool, and not in the ring. */
    ghost function Elsewhere(): set<ByteBuffer>
      reads this, pool
    {
      pool.lent - owner.Keys
    }

    /** The buffers that the ring and the pool own. */
    ghost function Stock(): set<ByteBuffer>
      reads this, pool
    {
      pool.free + owner.Keys
    }

    /** `chunk` belongs to a caller: neither it nor its buffer is in the ring or in the pool. */
    ghost predicate HeldByCaller(chunk: ChunkData)
      reads this, pool, chunk
    {
      && chunk !in slots
      && chunk.buffer != null && chunk.buffer in Elsewhere()
    }

    /** What happens to other buffers and chunks leaves the ring as it was. */
    twostate lemma RingUntouched()
      requires old(Valid()) && pool.Valid() && owner.Keys <= pool.lent
      requires unchanged(this) && unchanged(slots)
      requires forall b :: b in owner ==> b.data == old(b.data)
      ensures Valid()
    {
      forall i | 0 <= i < |slots|
        ensures Holds(slots[i], cells[i])
      {
        assert old(Holds(slots[i], cells[i])) && slots[i].buffer in owner;
      }
    }

    /** Fresh chunks, each with a buffer of its own; `owned` and `at` say which is whose. */
    static method NewCells(pool: BufferPool, size: nat)
      returns (chunks: seq<ChunkData>, ghost owned: map<ByteBuffer, nat>, ghost at: map<ChunkData, nat>)
      requires pool.Valid()
      modifies pool
      ensures |chunks| == size && pool.Valid() && old(pool.lent) <= pool.lent
      ensures forall i :: 0 <= i < size ==> fresh(chunks[i]) && Holds(chunks[i], Slot(EMPTY, 0))
      ensures forall i :: 0 <= i < size ==> chunks[i] in at && at[chunks[i]] == i
      ensures forall i :: 0 <= i < size ==> var b := chunks[i].buffer; b in owned && owned[b] == i
      ensures forall b :: b in owned ==> owned[b] < size && chunks[owned[b]].buffer == b && b in pool.lent && b !in old(pool.lent)
    {
      chunks, owned, at := [], map[], map[];
      while |chunks| < size
        invariant |chunks| <= size
        invariant pool.Valid() && old(pool.lent) <= pool.lent
        invariant forall i :: 0 <= i < |chunks| ==> fresh(chunks[i]) && Holds(chunks[i], Slot(EMPTY, 0))
        invariant forall i :: 0 <= i < |chunks| ==> chunks[i] in at && at[chunks[i]] == i
        invariant forall i :: 0 <= i < |chunks| ==> var b := chunks[i].buffer; b in owned && owned[b] == i
        invariant forall b :: b in owned ==> owned[b] < |chunks| && chunks[owned[b]].buffer == b && b in pool.lent
        invariant forall b :: b in owned ==> b !in old(pool.lent)
        invariant forall c :: c in at ==> c in chunks
      {
        var b := pool.Get();
        var c := new ChunkData(b);
        owned := owned[b := |chunks|];
        at := at[c := |chunks|];
        chunks := chunks + [c];
      }
    }

    constructor (pool: BufferPool, size: nat)
      requires size >= 1 && pool.Valid()
      modifies pool
      ensures Valid() && this.pool == pool && fresh(slots)
      ensures log == Core(size, [], 0, 0, Active, 0)
      ensures forall b :: b in old(pool.lent) ==> b in pool.lent && b !in owner
    {
      var chunks, owned, at := NewCells(pool, size);
      slots := chunks;
      this.pool := pool;
      head, writeSeq, state, clientCount := 0, 0, Active, 0;
      owner, cellOf := owned, at;
      log := Core(size, [], 0, 0, Active, 0);
      cells := seq(size, i => Slot(EMPTY, 0));
      new;
      RingAfterClear(log, cells);
    }

    /** A caller resets a chunk of its own: the ring does not notice. */
    method Discard(chunk: ChunkData)
      requires Valid() && HeldByCaller(chunk)
      modifies pool, chunk, chunk.buffer
      ensures Valid() && HeldByCaller(chunk)
      ensures Holds(chunk, Slot(EMPTY, 0))
      ensures fresh(chunk.buffer) || chunk.buffer in old(pool.free) || chunk.buffer == old(chunk.buffer)
      ensures chunk.buffer !in old(Elsewhere() - {chunk.buffer})
      ensures Elsewhere() == old(Elsewhere() - {chunk.buffer}) + {chunk.buffer}
    {
      chunk.Reset(pool);
      RingUntouched();
    }

    /** The part of Write that touches the coordinator's own fields. */
    method Advance(failed: bool, ghost p: Payload, ghost owner': map<ByteBuffer, nat>)
      modifies this
      ensures writeSeq == old(writeSeq) + 1 && head == Next(|slots|, old(head)) && clientCount == old(clientCount)
      ensures state == if failed then Draining else old(state)
      ensures owner == owner' && log == old(log).Write(p)
      ensures cells == if old(head) < |old(cells)| then old(cells[head := Slot(p, writeSeq + 1)]) else old(cells)
    {
      if head < |cells| {
        cells := cells[head := Slot(p, writeSeq + 1)];
      }
      log, owner := log.Write(p), owner';
      writeSeq := writeSeq + 1;
      head := Next(|slots|, head);
      if failed {
        state := Draining;
      }
    }

    static lemma Traded(lent: set<ByteBuffer>, owned: set<ByteBuffer>, given: ByteBuffer, taken: ByteBuffer)
      requires given in lent - owned && taken in owned && owned <= lent
      ensures lent - (owned - {taken} + {given}) == (lent - owned - {given}) + {taken}
    {
    }

    /** Write, under the lock: swaps the caller's buffer into the writer's cell. */
    method SwapIn(chunk: ChunkData)
      requires Valid() && HeldByCaller(chunk) && state == Active
      modifies this, slots[head], chunk
      ensures Valid() && HeldByCaller(chunk)
      ensures log == old(log).Write(old(Content(chunk).payload))
      ensures chunk.buffer == old(slots[head].buffer)
      ensures chunk.buffer !in old(Elsewhere()) && Elsewhere() == old(Elsewhere() - {chunk.buffer}) + {chunk.buffer}
      ensures owner.Keys <= old(owner.Keys + {chunk.buffer})
    {
      ghost var p := Content(chunk).payload;
      RingAfterWrite(log, p, cells);
      var current := slots[head];
      ghost var given: ByteBuffer := chunk.buffer;
      ghost var owner' := (owner - {current.buffer})[given := head];
      Traded(pool.lent, owner.Keys, given, current.buffer);
      assert owner'.Keys == owner.Keys - {current.buffer} + {given};
      current.SwapFrom(chunk, writeSeq + 1);
      Advance(current.error.Some? || current.status != 0, p, owner');
      forall i | 0 <= i < |slots|
        ensures Holds(slots[i], cells[i])
        ensures slots[i].buffer == if slots[i] == current then given else old(slots[i].buffer)
      {
      }
    }

    /** Write, of a chunk: swaps its buffer in, or refuses. Either way the chunk is reset and holds a buffer
        that nobody else has. */
    method WriteChunk(chunk: ChunkData) returns (ok: bool)
      requires Valid() && HeldByCaller(chunk)
      modifies this, pool, slots[head], chunk, chunk.buffer, slots[head].buffer
      ensures Valid()
      ensures ok == (old(state) == Active)
      ensures log == old(log).Write(old(Content(chunk).payload))
      ensures HeldByCaller(chunk) && Holds(chunk, Slot(EMPTY, 0))
      ensures chunk.buffer in old(Stock()) || fresh(chunk.buffer) || chunk.buffer == old(chunk.buffer)
      ensures chunk.buffer !in old(Elsewhere() - {chunk.buffer})
      ensures Elsewhere() == old(Elsewhere() - {chunk.buffer}) + {chunk.buffer}
    {
      ok := state == Active;
      if ok {
        SwapIn(chunk);
      }
      Discard(chunk);
    }

    /** Write: a caller may also pass no chunk at all. */
    method Write(chunk: ChunkData?) returns (ok: bool)
      requires Valid()
      requires chunk != null ==> HeldByCaller(chunk)
      modifies this, pool, slots[head], chunk, if chunk == null then {} else {chunk.buffer, slots[head].buffer}
      ensures Valid()
      ensures ok == (chunk != null && old(state) == Active)
      ensures log == if chunk == null then old(log) else old(log).Write(old(Content(chunk).payload))
      ensures chunk != null ==> HeldByCaller(chunk) && Holds(chunk, Slot(EMPTY, 0))
      ensures Elsewhere() == if chunk == null then old(Elsewhere()) else old(Elsewhere() - {chunk.buffer}) + {chunk.buffer}
    {
      if chunk == null {
        return false;
      }
      ok := WriteChunk(chunk);
    }

    method ResetCell(at: nat)
      requires pool.Valid() && OwnsBuffers() && at < |slots|
      modifies this`owner, pool, slots[at], slots[at].buffer
      ensures pool.Valid() && OwnsBuffers()
      ensures Holds(slots[at], Slot(EMPTY, 0))
      ensures forall j :: 0 <= j < |slots| && j != at ==>
                slots[j].buffer == old(slots[j].buffer)
                && (old(Holds(slots[j], Slot(EMPTY, 0))) ==> Holds(slots[j], Slot(EMPTY, 0)))
      ensures forall b :: b in Stock() ==> b in old(Stock()) || fresh(b)
      ensures Elsewhere() == old(Elsewhere())
    {
      var chunk := slots[at];
      ghost var given: ByteBuffer := chunk.buffer;
      ghost var owned, lent := owner.Keys, pool.lent;
      chunk.Reset(pool);
      Replaced(lent, owned, given, chunk.buffer);
      owner := (owner - {given})[chunk.buffer := at];
      assert owner.Keys == owned - {given} + {chunk.buffer};
    }

    static lemma Replaced(lent: set<ByteBuffer>, owned: set<ByteBuffer>, given: ByteBuffer, taken: ByteBuffer)
      requires owned <= lent && given in owned && (taken !in lent || taken == given)
      ensures ((set b | b in lent && b != given) + {taken}) - (owned - {given} + {taken}) == lent - owned
    {
    }

    ghost predicate Wiped(start: nat, count: nat)
      requires start < |slots|
      reads slots, set c | c in slots :: c.buffer
    {
      forall j {:trigger Ahead(|slots|, start, j)} :: 0 <= j < |slots| && Ahead(|slots|, start, j) < count ==>
        Holds(slots[j], Slot(EMPTY, 0))
    }

    method ResetNext(ghost start: nat, ghost count: nat, at: nat)
      requires pool.Valid() && OwnsBuffers() && start < |slots| && count < |slots|
      requires at < |slots| && Ahead(|slots|, start, at) == count && Wiped(start, count)
      modifies this`owner, pool, slots[at], slots[at].buffer
      ensures pool.Valid() && OwnsBuffers() && Wiped(start, count + 1)
      ensures Elsewhere() == old(Elsewhere())
      ensures forall b :: b in Stock() ==> b in old(Stock()) || fresh(b)
    {
      ResetCell(at);
      forall j | 0 <= j < |slots| && Ahead(|slots|, start, j) < count + 1
        ensures Holds(slots[j], Slot(EMPTY, 0))
      {
        if j != at {
          assert old(Holds(slots[j], Slot(EMPTY, 0)));
        }
      }
    }

    /** The loop of ClearBuffer: every cell gets an empty buffer. */
    method WipeAll()
      requires pool.Valid() && OwnsBuffers() && head < |slots|
      modifies this`owner, pool, slots, Stock()
      ensures pool.Valid() && OwnsBuffers() && Wiped(head, |slots|)
      ensures Elsewhere() == old(Elsewhere())
    {
      var at: nat := head;
      ghost var elsewhere, stock := Elsewhere(), Stock();
      for i := 0 to |slots|
        invariant at < |slots| && at == CellAfter(|slots|, head, i)
        invariant pool.Valid() && OwnsBuffers() && Wiped(head, i)
        invariant Elsewhere() == elsewhere
        invariant forall b :: b in Stock() ==> b in stock || fresh(b)
      {
        at := ResetAndGo(head, i, at);
      }
    }

    /** One turn of that loop: `at` is cell number `count` from the start, and `next` the one after it. */
    method ResetAndGo(ghost start: nat, ghost count: nat, at: nat) returns (next: nat)
      requires pool.Valid() && OwnsBuffers() && start < |slots| && count < |slots|
      requires at == CellAfter(|slots|, start, count) && at < |slots| && Wiped(start, count)
      modifies this`owner, pool, slots[at], slots[at].buffer
      ensures pool.Valid() && OwnsBuffers() && Wiped(start, count + 1)
      ensures Elsewhere() == old(Elsewhere()) && next < |slots| && next == CellAfter(|slots|, start, count + 1)
      ensures forall b :: b in Stock() ==> b in old(Stock()) || fresh(b)
    {
      CellAfterIsAhead(|slots|, start, count);
      ResetNext(start, count, at);
      next := Next(|slots|, at);
    }

    static function CellAfter(n: nat, a: nat, i: nat): int { if a + i < n then a + i else a + i - n }

    static lemma CellAfterIsAhead(n: nat, a: nat, i: nat)
      requires a < n && i < n
      ensures 0 <= CellAfter(n, a, i) < n && Ahead(n, a, CellAfter(n, a, i)) == i
      ensures Next(n, CellAfter(n, a, i)) == CellAfter(n, a, i + 1)
    {
    }

    /** ClearBuffer */
    method ClearBuffer()
      requires Valid()
      modifies this`log, this`owner, this`cells, pool, slots, Stock()
      ensures Valid()
      ensures log == old(log).Clear()
      ensures forall i :: 0 <= i < |slots| ==> Holds(slots[i], Slot(EMPTY, 0))
      ensures Elsewhere() == old(Elsewhere())
    {
      WipeAll();
      RecordClear(head);
    }

    method RecordClear(ghost start: nat)
      requires pool.Valid() && OwnsBuffers() && log.Valid()
      requires log.n == |slots| && log.head == head && log.state == state && log.clients == clientCount
      requires |log.written| == writeSeq
      requires start < |slots| && Wiped(start, |slots|)
      modifies this`log, this`cells
      ensures Valid() && log == old(log).Clear()
      ensures forall i :: 0 <= i < |slots| ==> Holds(slots[i], Slot(EMPTY, 0))
    {
      forall j | 0 <= j < |slots|
        ensures Holds(slots[j], Slot(EMPTY, 0))
      {
        assert Ahead(|slots|, start, j) < |slots|;
      }
      ghost var blank := seq(|slots|, i => Slot(EMPTY, 0));
      RingAfterClear(log, blank);
      log, cells := log.Clear(), blank;
    }

    method NewErrorChunk(error: Option<string>, status: int, now: int) returns (chunk: ChunkData)
      requires Valid()
      modifies pool
      ensures Valid() && fresh(chunk) && HeldByCaller(chunk)
      ensures Content(chunk) == Slot(Payload([], error, status, now), 0)
      ensures chunk.buffer in old(pool.free) || fresh(chunk.buffer)
      ensures chunk.buffer !in old(Elsewhere()) && Elsewhere() == old(Elsewhere()) + {chunk.buffer}
      ensures pool.free <= old(pool.free)
    {
      var b := pool.Get();
      chunk := new ChunkData.Failed(b, error, status, now);
      RingUntouched();
    }

    /** Write, and once more a reset when it refused. */
    method Send(chunk: ChunkData)
      requires Valid() && HeldByCaller(chunk)
      modifies this, pool, slots[head], chunk, chunk.buffer, Stock()
      ensures Valid()
      ensures log == old(log).Write(old(Content(chunk).payload))
      ensures old(Elsewhere() - {chunk.buffer}) <= Elsewhere()
    {
      ghost var others := Elsewhere() - {chunk.buffer};
      var ok := WriteChunk(chunk);
      assert others <= Elsewhere() - {chunk.buffer};
      if ok {
        return;
      }
      Discard(chunk);
    }

    /** writeError: a chunk that carries only the error, then the close, which is a step of its own. */
    method WriteError(error: Option<string>, status: int, now: int)
      requires Valid()
      modifies this, pool, Stock(), slots[head]
      ensures Valid()
      ensures log == old(log).WriteError(Payload([], error, status, now))
      ensures old(state) == Active ==> log.written == old(log.written) + [Payload([], error, status, now)]
      ensures old(state) != Active ==> log.written == old(log.written)
      ensures state == Closed && clientCount == old(clientCount) && log.cleared == old(log.cleared)
      ensures head == if old(state) == Active then Next(|slots|, old(head)) else old(head)
      ensures old(Elsewhere()) <= Elsewhere()
    {
      var chunk := NewErrorChunk(error, status, now);
      Send(chunk);
      StoreState(Closed);
    }

    method StoreState(s: State)
      requires Valid()
      modifies this`state, this`log
      ensures Valid()
      ensures log == old(log).(state := s)
    {
      RingIgnoresLife(log, s, clientCount, cells);
      state, log := s, log.(state := s);
    }

    method AddClients(d: int)
      requires Valid()
      modifies this`clientCount, this`log
      ensures Valid()
      ensures log == old(log).(clients := old(clientCount) + d)
    {
      RingIgnoresLife(log, state, clientCount + d, cells);
      clientCount, log := clientCount + d, log.(clients := clientCount + d);
    }

    method RegisterClient()
      requires Valid()
      modifies this`state, this`clientCount, this`log
      ensures Valid()
      ensures log == old(log).Register()
      ensures state == if old(clientCount) == 0 then Active else old(state)
      ensures clientCount == old(clientCount) + 1
      ensures log.written == old(log.written) && log.cleared == old(log.cleared) && head == old(head)
    {
      if state != Active && clientCount == 0 {
        StoreState(Active);
      }
      AddClients(1);
    }

    method UnregisterClient()
      requires Valid()
      modifies this`state, this`clientCount, this`log, this`owner, this`cells, pool, slots, Stock()
      ensures Valid()
      ensures log == old(log).Unregister()
      ensures clientCount == old(clientCount) - 1 && log.written == old(log.written) && log.head == old(log.head)
      ensures old(clientCount) == 1 ==> state == Draining && log.cleared == writeSeq
      ensures old(clientCount) != 1 ==> state == old(state) && log.cleared == old(log.cleared)
      ensures Elsewhere() == old(Elsewhere())
    {
      AddClients(-1);
      if clientCount == 0 {
        StoreState(Draining);
        ClearBuffer();
      }
    }

    /** ReadChunks, first region: a reader whose cell is stale is moved to the writer's cell. */
    method BeginRead(pos: nat) returns (from: nat)
      requires Valid()
      requires pos < |slots|
      ensures from == log.Start(pos)
      ensures from == if log.SlotAt(pos).seqNo < |log.written| - |slots| then head else pos
    {
      from := pos;
      assert cells[pos] == log.SlotAt(pos);
      if slots[from].seqNo < writeSeq - |slots| {
        from := head;
      }
    }

    /** `chunks` are copies of `ps`, one each, on buffers that are nobody else's: not in the ring, the pool
        or `taken`, and no two alike. */
    ghost predicate IsBatch(chunks: seq<ChunkData>, ps: seq<Payload>, taken: set<ByteBuffer>)
      reads this, pool, chunks, set c | c in chunks :: c.buffer
    {
      && |chunks| == |ps|
      && (forall i :: 0 <= i < |chunks| ==> Holds(chunks[i], Slot(ps[i], 0)) && HeldByCaller(chunks[i]))
      && (forall i :: 0 <= i < |chunks| ==> chunks[i].buffer !in taken)
      && Apart(chunks)
    }

    static ghost predicate Apart(chunks: seq<ChunkData>)
      reads chunks
    {
      forall i, j :: 0 <= i < j < |chunks| ==> chunks[i].buffer != chunks[j].buffer
    }

    static ghost predicate IsErrorCopy(chunk: ChunkData?, p: Option<Payload>)
      reads chunk
    {
      if chunk == null then p == None
      else chunk.buffer == null && p == Some(Payload([], chunk.error, chunk.status, chunk.timestamp))
    }

    /** A copy of a chunk's data, on a buffer that nobody else has. */
    method NewCopy(chunk: ChunkData) returns (copy: ChunkData)
      requires Valid() && chunk in slots
      modifies pool, pool.free
      ensures Valid() && fresh(copy) && HeldByCaller(copy)
      ensures chunk.buffer != null && Holds(copy, Slot(Payload(chunk.buffer.data, None, 0, chunk.timestamp), 0))
      ensures (fresh(copy.buffer) || copy.buffer in old(pool.free)) && copy.buffer !in old(Elsewhere())
      ensures Elsewhere() == old(Elsewhere()) + {copy.buffer} && pool.free <= old(pool.free)
      ensures forall b: ByteBuffer {:trigger b.data} :: b in old(pool.lent) ==> b.data == old(b.data)
    {
      var b := pool.Get();
      b.data := b.data + chunk.buffer.data;
      copy := new ChunkData(b);
      copy.timestamp := chunk.timestamp;
      RingUntouched();
    }

    method AppendCopy(chunks: seq<ChunkData>, chunk: ChunkData, ghost ps: seq<Payload>, ghost taken: set<ByteBuffer>)
      returns (chunks': seq<ChunkData>)
      requires Valid() && chunk in slots && IsBatch(chunks, ps, taken) && taken <= Elsewhere()
      modifies pool, pool.free
      ensures Valid() && chunk.buffer != null
      ensures IsBatch(chunks', ps + [Payload(chunk.buffer.data, None, 0, chunk.timestamp)], taken)
      ensures |chunks'| == |chunks| + 1 && chunks' == chunks + [chunks'[|chunks|]] && fresh(chunks'[|chunks|])
      ensures old(Elsewhere()) <= Elsewhere() && pool.free <= old(pool.free)
    {
      var copy := NewCopy(chunk);
      chunks' := chunks + [copy];
      ghost var ps' := ps + [Payload(chunk.buffer.data, None, 0, chunk.timestamp)];
      forall i | 0 <= i < |chunks'|
        ensures Holds(chunks'[i], Slot(ps'[i], 0)) && HeldByCaller(chunks'[i]) && chunks'[i].buffer !in taken
        ensures i < |chunks| ==> chunks'[i].buffer == old(chunks[i].buffer) != copy.buffer
      {
        if i < |chunks| {
          assert chunks'[i] == chunks[i] && old(HeldByCaller(chunks[i]) && Holds(chunks[i], Slot(ps[i], 0)));
        }
      }
    }

    /** A copy of a chunk's error, if it has one, takes the place of the last. */
    method NoteError(chunk: ChunkData, error: ChunkData?, ghost p: Option<Payload>) returns (error': ChunkData?)
      requires IsErrorCopy(error, p)
      ensures IsErrorCopy(error', if chunk.error.Some? || chunk.status != 0
                                  then Some(Payload([], chunk.error, chunk.status, chunk.timestamp)) else p)
      ensures error' == error || fresh(error')
    {
      error' := error;
      if chunk.error.Some? || chunk.status != 0 {
        error' := new ChunkData.Failed(null, chunk.error, chunk.status, chunk.timestamp);
      }
    }

    /** ReadChunks, one cell: copies its data, if any, and notes its error, if any. */
    method ReadCell(ghost from: nat, current: nat, chunks: seq<ChunkData>, error: ChunkData?,
                    ghost taken: set<ByteBuffer>)
      returns (chunks': seq<ChunkData>, error': ChunkData?)
      requires Valid() && from < |slots| && current < |slots| && current != head
      requires Ahead(|slots|, from, current) < Ahead(|slots|, from, head)
      requires IsBatch(chunks, Data(Passed(log, from, current)), taken) && taken <= Elsewhere()
      requires IsErrorCopy(error, LastError(Passed(log, from, current)))
      modifies pool, pool.free
      ensures Valid() && old(Elsewhere()) <= Elsewhere() && pool.free <= old(pool.free)
      ensures IsBatch(chunks', Data(Passed(log, from, Next(|slots|, current))), taken)
      ensures IsErrorCopy(error', LastError(Passed(log, from, Next(|slots|, current))))
      ensures forall c :: c in chunks' ==> c in chunks || fresh(c)
      ensures error' == error || fresh(error')
    {
      PassCell(log, from, current);
      assert cells[current] == log.SlotAt(current);
      var chunk := slots[current];
      error' := NoteError(chunk, error, LastError(Passed(log, from, current)));
      chunks' := chunks;
      if chunk.buffer != null && |chunk.buffer.data| > 0 {
        chunks' := AppendCopy(chunks, chunk, Data(Passed(log, from, current)), taken);
      }
    }

    /** ReadChunks, last region: nothing while the reader is caught up with an active writer; otherwise
        copies of what the log still shows from `from` on, and the last error among it. */
    method TryRead(from: nat) returns (ready: bool, chunks: seq<ChunkData>, error: ChunkData?, newPos: nat)
      requires Valid()
      requires from < |slots|
      modifies pool, pool.free
      ensures Valid() && log == old(log) && owner == old(owner)
      ensures ready == !log.CaughtUp(from) == (from != head || state != Active)
      ensures !ready ==> chunks == [] && error == null && newPos == from
      ensures ready ==> newPos == log.head && IsBatch(chunks, Data(log.Visible(from)), old(Elsewhere()))
      ensures ready ==> IsErrorCopy(error, LastError(log.Visible(from)))
      ensures (forall c :: c in chunks ==> fresh(c)) && (error != null ==> fresh(error))
      ensures old(Elsewhere()) <= Elsewhere()
    {
      chunks, error, newPos := [], null, from;
      if from == head && state == Active {
        return false, chunks, error, newPos;
      }
      var current: nat := from;
      while current != head
        invariant current < |slots| && Ahead(|slots|, from, current) + Ahead(|slots|, current, head) == Ahead(|slots|, from, head)
        invariant Valid() && pool.free <= old(pool.free) && old(Elsewhere()) <= Elsewhere()
        invariant IsBatch(chunks, Data(Passed(log, from, current)), old(Elsewhere()))
        invariant IsErrorCopy(error, LastError(Passed(log, from, current)))
        invariant (forall c :: c in chunks ==> fresh(c)) && (error != null ==> fresh(error))
        decreases Ahead(|slots|, current, head)
      {
        chunks, error := ReadCell(from, current, chunks, error, old(Elsewhere()));
        current := Next(|slots|, current);
        if current == from {
          break;
        }
      }
      assert Passed(log, from, head) == log.Visible(from);
      return true, chunks, error, current;
    }
  }
}
