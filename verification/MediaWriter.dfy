/** What a client gets of a response that a media writer pumps into the shared buffer
    (proxy/stream/buffer/coordinator_media.go): pump, ring and readers together. */
module MediaWriter {
  import opened BufferPools
  import opened Broadcast
  import Pump
  import Runs = BroadcastRuns

  const STATUS_EOF := 2

  /** The chunks that a media writer makes of what the pump hands on, one per read; `clock` tells the time of each. */
  function Chunks(turns: seq<Pump.Turn>, clock: nat -> int): seq<Payload> {
    if turns == [] then []
    else
      var t := turns[|turns| - 1];
      Chunks(turns[..|turns| - 1], clock) + if t.Drops() || t.Data() == [] then [] else [Payload(t.Data(), None, 0, clock(|turns|))]
  }

  lemma {:induction false} ChunksAreSound(turns: seq<Pump.Turn>, clock: nat -> int)
    ensures Flatten(Chunks(turns, clock)) == Pump.Sound(turns)
    ensures forall p :: p in Chunks(turns, clock) ==> !p.IsError()
  {
    if turns != [] {
      var front, t := turns[..|turns| - 1], turns[|turns| - 1];
      ChunksAreSound(front, clock);
      var chunk := Payload(t.Data(), None, 0, clock(|turns|));
      if t.Drops() || t.Data() == [] {
        assert Chunks(turns, clock) == Chunks(front, clock);
      } else {
        assert (Chunks(front, clock) + [chunk])[..|Chunks(front, clock)|] == Chunks(front, clock);
      }
    }
  }

  /** A body without failures reaches every client that keeps up, however long it is and in however many reads: from a
      time at which the client has nothing outstanding, if a media writer's chunks and then the end of the file are what
      is written, the client is handed every byte of the body, in order, and the first read after the end reports it. */
  lemma BodyReachesReader(states: seq<Runs.System>, steps: seq<Runs.Step>, n: nat, i: nat, m: nat, j: nat, id: Runs.ReaderId,
                          turns: seq<Pump.Turn>, taken: nat, clock: nat -> int, p: Payload)
    requires n >= 1 && Runs.IsRun(states, steps) && states[0] == Runs.Init(n) && i <= m < j < |steps|
    requires id in states[i].readers
    requires Runs.Due(states[i], id, states[i].core.cleared) == |states[i].core.written|
    requires Runs.AlwaysKeepsUp(states, steps, i, j + 1, id)
    requires Pump.Took(turns, taken, Pump.Finished) && forall t :: t in turns[..taken] ==> !t.Drops()
    requires states[m].core.written == states[i].core.written + Chunks(turns[..taken], clock)
    requires steps[m] == Runs.Write(p) && p == Payload([], Some("EOF"), STATUS_EOF, p.timestamp)
    requires Runs.NobodyRevives(states, steps, m + 1, j)
    requires steps[j] == Runs.Finish(id) && Runs.NoReadWithin(steps, m + 1, j, id)
    ensures id in states[j].readers && id in states[j + 1].readers
    ensures var w, w' := |states[i].core.written|, |states[j].core.written|;
            && w <= w' && states[j + 1].readers[id].delivered == states[i].readers[id].delivered + Runs.Numbers(w, w')
            && Runs.BytesOf(states[j].core.written, Runs.Numbers(w, w')) == Pump.Body(turns[..taken])
    ensures Runs.Fits(states[j]) && states[j].readers[id].from.Some?
    ensures LastError(states[j].core.Visible(states[j].readers[id].from.value)) == Some(p)
  {
    Runs.AllDataThenError(states, steps, n, i, m, j, id, p);
    ChunksAreSound(turns[..taken], clock);
    Pump.SoundIsAllIff(turns[..taken]);
    assert states[m].core.written[|states[i].core.written|..] == Chunks(turns[..taken], clock);
    assert Pump.Body(turns[..taken]) + p.data == Pump.Body(turns[..taken]);
  }
}
