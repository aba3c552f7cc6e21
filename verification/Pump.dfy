/** The pump of a writer: it reads the body of a response and hands on what it reads (readAndWriteStream in
    proxy/stream/buffer/coordinator.go). Clocks, cancellation and the body itself are the turns of the loop. */
module Pump {
  import opened BufferPools

  const MAX_EMPTY_READS := 10

  datatype ReadError = NoError | EndOfFile | Failure(code: int)

  /** What a read comes to: its result, or what happens before there is one. */
  datatype Outcome = Got(data: Bytes, err: ReadError) | Interrupted | Stalled

  /** What the loop meets in one turn: whether the stream is active, the context is done and the last success is too
      long ago; the read; whether it is still time to retry; and the error of processChunk, if there is one. */
  datatype Turn = Turn(active: bool, cancelled: bool, overdue: bool, outcome: Outcome, retries: bool, chunkError: Option<int>)
  {
    predicate Reads() { active && !cancelled && !overdue && outcome.Got? }

    function Data(): Bytes { if Reads() then outcome.data else [] }

    predicate IsEmptyRead() { Reads() && outcome.data == [] }

    predicate Fails() { Reads() && outcome.err.Failure? }

    /** Data came with an error that is not the end: it is not handed on. */
    predicate Drops() { Fails() && outcome.data != [] }
  }

  datatype End = Running | Inactive | Cancelled | TimedOut | Finished | ReadFailed(code: int) | ChunkFailed(code: int)

  /** The bytes that were read. */
  function Body(turns: seq<Turn>): Bytes { if turns == [] then [] else Body(turns[..|turns| - 1]) + turns[|turns| - 1].Data() }

  /** The bytes that were read without a failure. */
  function Sound(turns: seq<Turn>): Bytes {
    if turns == [] then []
    else Sound(turns[..|turns| - 1]) + if turns[|turns| - 1].Drops() then [] else turns[|turns| - 1].Data()
  }

  /** How many reads in a row were empty, up to now. */
  function EmptyRun(turns: seq<Turn>): nat {
    if turns == [] || !turns[|turns| - 1].IsEmptyRead() then 0 else EmptyRun(turns[..|turns| - 1]) + 1
  }

  /** The turn after `before` is the last one, and this is how it ends. */
  function EndAt(before: seq<Turn>, t: Turn): End {
    if !t.active then Inactive
    else if t.cancelled || (!t.overdue && t.outcome.Interrupted?) then Cancelled
    else if t.overdue || t.outcome.Stalled? then TimedOut
    else if t.IsEmptyRead() && EmptyRun(before) == MAX_EMPTY_READS then Finished
    else if t.Fails() then (if t.retries then Running else ReadFailed(t.outcome.err.code))
    else if t.Data() != [] && t.chunkError.Some? then ChunkFailed(t.chunkError.value)
    else if t.outcome.err.EndOfFile? then Finished
    else Running
  }

  /** Why a pump ends: the turn that ends it was not active, or was cancelled, or came too late, or its read or its chunk
      failed, or the body was at its end, or the read was the eleventh empty one in a row. */
  predicate EndedBy(before: seq<Turn>, t: Turn, end: End) {
    match end
    case Running => false
    case Inactive => !t.active
    case Cancelled => t.active && (t.cancelled || t.outcome.Interrupted?)
    case TimedOut => t.active && !t.cancelled && (t.overdue || t.outcome.Stalled?)
    case ReadFailed(code) => t.Reads() && t.outcome.err == Failure(code) && !t.retries
    case ChunkFailed(code) => t.Data() != [] && !t.Fails() && t.chunkError == Some(code)
    case Finished => t.Reads() && (t.outcome.err.EndOfFile? || (t.IsEmptyRead() && EmptyRun(before) == MAX_EMPTY_READS))
  }

  /** None of the turns ended the loop. */
  ghost predicate Ran(turns: seq<Turn>) {
    turns == [] || (Ran(turns[..|turns| - 1]) && EndAt(turns[..|turns| - 1], turns[|turns| - 1]) == Running)
  }

  lemma WhyItEnds(turns: seq<Turn>, n: nat, end: End)
    requires n <= |turns| && Took(turns, n, end)
    ensures end == Running ==> n == |turns|
    ensures end != Running ==> 0 < n && EndedBy(turns[..n - 1], turns[n - 1], end)
  {
  }

  /** The pump took the first n turns: none but the last of them ended it. */
  ghost predicate Took(turns: seq<Turn>, n: nat, end: End) {
    if end == Running then n == |turns| && Ran(turns)
    else 0 < n <= |turns| && Ran(turns[..n - 1]) && EndAt(turns[..n - 1], turns[n - 1]) == end
  }

  lemma {:induction false} RanBefore(turns: seq<Turn>, n: nat, k: nat)
    requires k <= n <= |turns| && Ran(turns[..n])
    ensures Ran(turns[..k]) && EmptyRun(turns[..k]) <= MAX_EMPTY_READS
    ensures k < n ==> EndAt(turns[..k], turns[k]) == Running
    decreases n
  {
    if n > 0 {
      assert turns[..n][..n - 1] == turns[..n - 1];
      RanBefore(turns, n - 1, if k < n then k else n - 1);
    }
  }

  lemma {:induction false} SoundIsAllIff(turns: seq<Turn>)
    ensures |Sound(turns)| < |Body(turns)| || Sound(turns) == Body(turns)
    ensures Sound(turns) == Body(turns) <==> forall t :: t in turns ==> !t.Drops()
  {
    if turns != [] {
      var before, t := turns[..|turns| - 1], turns[|turns| - 1];
      SoundIsAllIff(before);
      assert turns == before + [t];
      if |Sound(before)| < |Body(before)| || t.Drops() {
        assert |Sound(turns)| < |Body(turns)|;
      }
    }
  }

  /** The body of the loop: one turn, after the turns `before`. */
  method TakeTurn(t: Turn, zeroReads: nat, ghost before: seq<Turn>) returns (chunk: Bytes, zeroReads': nat, end: End)
    requires zeroReads == EmptyRun(before) <= MAX_EMPTY_READS
    ensures end == EndAt(before, t)
    ensures end != Running ==> EndedBy(before, t, end)
    ensures chunk == if t.Drops() then [] else t.Data()
    ensures end == Running ==> zeroReads' == EmptyRun(before + [t]) <= MAX_EMPTY_READS
  {
    assert (before + [t])[..|before|] == before;
    chunk, zeroReads', end := [], zeroReads, Running;
    if !t.active { end := Inactive; return; }
    if t.cancelled { end := Cancelled; return; }
    if t.overdue || t.outcome.Stalled? { end := TimedOut; return; }
    if t.outcome.Interrupted? { end := Cancelled; return; }
    var data, err := t.outcome.data, t.outcome.err;
    if |data| == 0 {
      zeroReads' := zeroReads + 1;
      if zeroReads' > MAX_EMPTY_READS {
        end := Finished;
      } else if err.EndOfFile? {
        end := Finished;
      } else if err.Failure? && !t.retries {
        end := ReadFailed(err.code);
      }
      return;
    }
    zeroReads' := 0;
    if err.Failure? {
      end := if t.retries then Running else ReadFailed(err.code);
      return;
    }
    chunk := data;
    if t.chunkError.Some? {
      end := ChunkFailed(t.chunkError.value);
    } else if err.EndOfFile? {
      end := Finished;
    }
  }

  /** readAndWriteStream: what is handed on is what was read without a failure, in order. That is all that was read
      exactly if no read returned data together with an error other than the end. Ten empty reads in a row are
      tolerated, and with the eleventh the stream counts as finished. */
  method ReadAndWriteStream(turns: seq<Turn>) returns (handed: Bytes, end: End, taken: nat)
    ensures Took(turns, taken, end)
    ensures handed == Sound(turns[..taken])
    ensures handed == Body(turns[..taken]) <==> forall t :: t in turns[..taken] ==> !t.Drops()
  {
    handed, end, taken := [], Running, 0;
    var zeroReads := 0;
    ghost var before: seq<Turn> := [];
    while taken < |turns|
      invariant taken <= |turns| && before == turns[..taken]
      invariant end == Running && Ran(before) && zeroReads == EmptyRun(before) <= MAX_EMPTY_READS && handed == Sound(before)
    {
      ghost var after := before + [turns[taken]];
      assert after[..taken] == before && turns[..taken + 1] == after;
      var chunk: Bytes;
      chunk, zeroReads, end := TakeTurn(turns[taken], zeroReads, before);
      handed, taken, before := handed + chunk, taken + 1, after;
      if end != Running {
        break;
      }
    }
    SoundIsAllIff(before);
    assert turns[..|turns|] == turns;
  }

  /** Nothing goes wrong, and the last read is the one that reports the end. */
  predicate Healthy(turns: seq<Turn>) {
    && turns != []
    && (forall k :: 0 <= k < |turns| ==> turns[k].Reads() && !turns[k].Fails() && turns[k].chunkError.None?)
    && (forall k :: 0 <= k < |turns| ==> (turns[k].outcome.err.EndOfFile? <==> k == |turns| - 1))
  }

  /** A healthy body is pumped to its end exactly if there are never more than ten empty reads in a row before the end;
      then every byte of it is handed on. */
  lemma HealthyBodyIsFinishedIff(turns: seq<Turn>, n: nat, end: End)
    requires Healthy(turns) && Took(turns, n, end)
    ensures end == Finished
    ensures n == |turns| <==> forall k :: 0 < k < |turns| ==> EmptyRun(turns[..k]) <= MAX_EMPTY_READS
    ensures Sound(turns[..n]) == Body(turns[..n])
  {
    var last := |turns| - 1;
    assert EndAt(turns[..last], turns[last]) == Finished;
    assert n > 0 && turns[n - 1].Reads() && !turns[n - 1].Fails();
    SoundIsAllIff(turns[..n]);
    if n == |turns| {
      forall k | 0 < k < |turns|
        ensures EmptyRun(turns[..k]) <= MAX_EMPTY_READS
      {
        RanBefore(turns, last, k);
      }
    } else {
      assert turns[..n][..n - 1] == turns[..n - 1] && turns[..n][n - 1] == turns[n - 1];
      assert EmptyRun(turns[..n]) == MAX_EMPTY_READS + 1;
    }
  }

  /** Data that comes with an error is not handed on, even if the read is tried again. */
  lemma DataWithAnErrorIsDropped()
    ensures var t := Turn(true, false, false, Got([1], Failure(5)), true, None);
            Took([t], 1, Running) && Sound([t]) == [] && Body([t]) == [1]
  {
    var t := Turn(true, false, false, Got([1], Failure(5)), true, None);
    assert [t][..0] == [];
  }

  /** Eleven empty reads end a healthy body before its data comes. */
  lemma ElevenEmptyReadsCutTheBody()
    ensures var turns := seq(11, i => Turn(true, false, false, Got([], NoError), false, None)) +
                         [Turn(true, false, false, Got([1], EndOfFile), false, None)];
            Healthy(turns) && Took(turns, 11, Finished) && Body(turns[..11]) == [] && Body(turns) == [1]
  {
    var turns := seq(11, i => Turn(true, false, false, Got([], NoError), false, None)) +
                 [Turn(true, false, false, Got([1], EndOfFile), false, None)];
    EmptyReads(turns, 10);
    EmptyReads(turns, 11);
    assert turns[..12] == turns && turns[..12][..11] == turns[..11];
  }

  lemma {:induction false} EmptyReads(turns: seq<Turn>, n: nat)
    requires n <= |turns| && n <= 11 && forall k :: 0 <= k < n ==> turns[k] == Turn(true, false, false, Got([], NoError), false, None)
    ensures EmptyRun(turns[..n]) == n && Body(turns[..n]) == [] && (n <= 10 ==> Ran(turns[..n]))
  {
    if n > 0 {
      EmptyReads(turns, n - 1);
      assert turns[..n][..n - 1] == turns[..n - 1];
    }
  }
}
