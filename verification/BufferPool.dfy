/** Byte buffers, the shared pool they come from, and the chunks that carry them
    (proxy/stream/buffer/coordinator.go, with github.com/valyala/bytebufferpool as the pool). */
module BufferPools {

  datatype Option<+T> = None | Some(value: T)

  type Bytes = seq<bv8>

  class ByteBuffer {
    var data: Bytes

    constructor ()
      ensures data == []
    {
      data := [];
    }
  }

  /** `free` holds the buffers waiting in the pool, `lent` the ones handed out and not yet returned.
      Put asks for a lent buffer, so every verified call site returns a buffer at most once. */
  class BufferPool {
    var free: set<ByteBuffer>
    ghost var lent: set<ByteBuffer>

    ghost predicate Valid()
      reads this, free
    {
      && free !! lent
      && (forall b :: b in free ==> b.data == [])
    }

    constructor ()
      ensures Valid() && free == {} && lent == {}
    {
      free, lent := {}, {};
    }

    /** The pool may hand out a waiting buffer or a new one; the caller cannot tell which. */
    method Get() returns (b: ByteBuffer)
      requires Valid()
      modifies this
      ensures Valid()
      ensures b.data == []
      ensures fresh(b) || b in old(free)
      ensures b !in old(lent)
      ensures free == old(free) - {b} && lent == old(lent) + {b}
    {
      b := new ByteBuffer();
      if free != {} {
        if * {
          b :| b in free;
        }
      }
      free := free - {b};
      lent := lent + {b};
    }

    method Put(b: ByteBuffer)
      requires Valid()
      requires b in lent
      modifies this, b
      ensures Valid()
      ensures b.data == []
      ensures free == old(free) + {b} && lent == old(lent) - {b}
    {
      b.data := [];
      free := free + {b};
      lent := lent - {b};
    }
  }

  /** A chunk of stream data and its metadata; `seqNo` is the write number, 0 after a reset. */
  class ChunkData {
    var buffer: ByteBuffer?
    var error: Option<string>
    var status: int
    var timestamp: int
    var seqNo: nat

    constructor (b: ByteBuffer?)
      ensures buffer == b && error == None && status == 0 && timestamp == 0 && seqNo == 0
    {
      buffer, error, status, timestamp, seqNo := b, None, 0, 0, 0;
    }

    constructor Failed(b: ByteBuffer?, error: Option<string>, status: int, timestamp: int)
      ensures buffer == b && this.error == error && this.status == status && this.timestamp == timestamp && seqNo == 0
    {
      buffer, seqNo := b, 0;
      this.error, this.status, this.timestamp := error, status, timestamp;
    }

    /** The swap inside Write: this chunk takes the content of `other`, which is left with this chunk's buffer. */
    method SwapFrom(other: ChunkData, number: nat)
      requires other != this
      modifies this, other`buffer
      ensures buffer == old(other.buffer) && other.buffer == old(buffer)
      ensures error == other.error && status == other.status && timestamp == other.timestamp
      ensures seqNo == number
    {
      seqNo := number;
      buffer, other.buffer := other.buffer, buffer;
      error, status, timestamp := other.error, other.status, other.timestamp;
    }

    /** Gives the buffer back and takes a new one. The new buffer can be the very one just given
        back, but never one that somebody else holds. */
    method Reset(pool: BufferPool)
      requires pool.Valid()
      requires buffer != null ==> buffer in pool.lent
      modifies this, pool, buffer
      ensures pool.Valid()
      ensures buffer != null && buffer.data == [] && buffer in pool.lent
      ensures fresh(buffer) || buffer in old(pool.free) || buffer == old(buffer)
      ensures buffer !in old(pool.lent) || buffer == old(buffer)
      ensures pool.lent == (set b | b in old(pool.lent) && b != old(buffer)) + {buffer}
      ensures pool.free <= old(pool.free) + (if old(buffer) == null then {} else {old(buffer)})
      ensures error == None && status == 0 && timestamp == 0 && seqNo == 0
    {
      if buffer != null {
        pool.Put(buffer);
      }
      buffer := pool.Get();
      error, status, timestamp, seqNo := None, 0, 0, 0;
    }
  }
}
