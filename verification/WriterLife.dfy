/** The life of a stream's writer and the one-time setup gate in front of it: clients entering and waiting,
    writers starting, streaming and exiting, in every interleaving, one step per lock region or atomic access
    (proxy/stream/media_stream.go, proxy/stream/buffer/coordinator.go, coordinator_media.go, coordinator_m3u8.go).
    Closing a closed channel, which stops the program, is modelled as `panicked`. */
module WriterLife {
  import opened BufferPools

  type ClientId = nat
  type WriterId = nat

  datatype Chan = GateChan(id: nat) | HeaderChan(id: nat) | BroadcastChan(id: nat)

  /** The setup gate and the set of channels closed so far; channel numbers below `nextId` are taken. */
  datatype Gate = Gate(busy: bool, wait: Option<Chan>, broadcast: Chan, closed: set<Chan>, nextId: nat, panicked: bool) {

    function CloseChan(c: Chan): Gate {
      if c in closed then this.(panicked := true) else this.(closed := closed + {c})
    }

    function Claim(): Gate { this.(busy := true, wait := Some(GateChan(nextId)), nextId := nextId + 1) }

    function Finish(): Gate {
      if !busy then this
      else if wait.Some? then CloseChan(wait.value).(busy := false, wait := None)
      else this.(busy := false)
    }

    function Notify(): Gate { CloseChan(broadcast).(broadcast := BroadcastChan(nextId), nextId := nextId + 1) }

    /** Busy holds exactly when there is a wait channel, and that channel is open. */
    ghost predicate Valid() {
      && !panicked
      && (busy <==> wait.Some?)
      && (wait.Some? ==> wait.value.GateChan? && wait.value.id < nextId && wait.value !in closed)
      && broadcast.BroadcastChan? && broadcast.id < nextId && broadcast !in closed
      && (forall c :: c in closed ==> c.id < nextId)
    }
  }

  /** The gate as the coordinator keeps it. */
  class SetupGate {
    var WriterSetupBusy: bool
    var WriterSetupWait: Option<Chan>
    var Broadcast: Chan
    var WriterActive: bool
    var HasLBResult: bool
    ghost var gate: Gate

    ghost predicate Valid()
      reads this
    {
      && gate.Valid()
      && gate.busy == WriterSetupBusy && gate.wait == WriterSetupWait && gate.broadcast == Broadcast
    }

    constructor ()
      ensures Valid() && !WriterActive && !HasLBResult
      ensures gate == Gate(false, None, BroadcastChan(0), {}, 1, false)
    {
      WriterSetupBusy, WriterSetupWait, Broadcast := false, None, BroadcastChan(0);
      WriterActive, HasLBResult := false, false;
      gate := Gate(false, None, BroadcastChan(0), {}, 1, false);
    }

    method TryStartWriterSetup(nextId: Chan) returns (claimed: bool)
      requires Valid() && nextId == GateChan(gate.nextId)
      modifies this
      ensures Valid()
      ensures claimed == (!old(WriterSetupBusy) && !WriterActive && !HasLBResult)
      ensures gate == if claimed then old(gate).Claim() else old(gate)
      ensures claimed ==> WriterSetupBusy && WriterSetupWait == Some(nextId) && nextId !in gate.closed
      ensures gate.closed == old(gate.closed) && Broadcast == old(Broadcast)
      ensures WriterActive == old(WriterActive) && HasLBResult == old(HasLBResult)
    {
      if WriterSetupBusy || WriterActive || HasLBResult {
        return false;
      }
      WriterSetupBusy := true;
      WriterSetupWait := Some(nextId);
      gate := gate.Claim();
      return true;
    }

    /** The snapshot that a waiting client takes; None means it does not wait. */
    method WaitForWriterSetup() returns (ch: Option<Chan>)
      requires Valid()
      ensures ch.Some? <==> WriterSetupBusy
      ensures ch.Some? ==> ch == WriterSetupWait && ch.value !in gate.closed
    {
      var busy := WriterSetupBusy;
      ch := WriterSetupWait;
      if !busy || ch == None {
        return None;
      }
    }

    method FinishWriterSetup()
      requires Valid()
      modifies this
      ensures Valid() && gate == old(gate).Finish() && !WriterSetupBusy && WriterSetupWait == None
      ensures gate.closed == old(gate.closed) + if old(WriterSetupBusy) then {old(WriterSetupWait).value} else {}
      ensures Broadcast == old(Broadcast)
      ensures WriterActive == old(WriterActive) && HasLBResult == old(HasLBResult)
    {
      if !WriterSetupBusy {
        return;
      }
      gate := gate.Finish();
      WriterSetupBusy := false;
      if WriterSetupWait.Some? {
        WriterSetupWait := None;
      }
    }

    method NotifySubscribers(nextId: Chan)
      requires Valid() && nextId == BroadcastChan(gate.nextId)
      modifies this
      ensures Valid() && gate == old(gate).Notify()
      ensures old(Broadcast) in gate.closed && Broadcast == nextId && Broadcast !in gate.closed
      ensures gate.closed == old(gate.closed) + {old(Broadcast)} && WriterSetupWait == old(WriterSetupWait)
      ensures WriterActive == old(WriterActive) && HasLBResult == old(HasLBResult)
    {
      gate := gate.Notify();
      Broadcast := nextId;
    }
  }

  /** Where a writer is: just spawned; its load-balancer result stored; the setup gate released; its own header
      channel stored; holding the header channel it is about to close; streaming; its result withdrawn; holding
      InitializationMu on the way out; WriterActive lowered. */
  datatype Pc = Spawned | Stored | Announced | Ready | Loaded(ch: Chan) | Streaming | Ending | Leaving | Lowered

  datatype Writer = Writer(pc: Pc, hls: bool)

  datatype Holder = Free | ByClient(c: ClientId) | ByWriter(w: WriterId)

  datatype System = System(
    gate: Gate,
    lock: Holder,               // InitializationMu
    writerActive: bool,
    lbResult: bool,             // a load-balancer result is published
    header: Chan,               // respHeaderSet
    headerDone: bool,           // m3uHeaderSet
    writers: map<WriterId, Writer>,
    waiters: map<ClientId, Chan>)

  datatype Step =
    | TryStart(c: ClientId)
    | FinishSetup
    | StartWaiting(c: ClientId)
    | StopWaiting(c: ClientId)
    | EnterLock(c: ClientId)
    | Spawn(c: ClientId, w: WriterId, hls: bool)
    | Register(c: ClientId, revives: bool)
    | Notify
    | StoreResult(w: WriterId)
    | Announce(w: WriterId)
    | StoreHeader(w: WriterId)
    | LoadHeader(w: WriterId)
    | CloseHeader(w: WriterId)
    | Withdraw(w: WriterId)
    | LeaveLock(w: WriterId)
    | Lower(w: WriterId)
    | Leave(w: WriterId)

  function Init(): System {
    System(Gate(false, None, BroadcastChan(0), {}, 2, false), Free, false, false, HeaderChan(1), false, map[], map[])
  }

  predicate At(s: System, w: WriterId, pc: Pc) { w in s.writers && s.writers[w].pc == pc }

  /** TryStartWriterSetup succeeds. */
  predicate Claims(s: System) { !s.gate.busy && !s.writerActive && !s.lbResult }

  predicate Enabled(s: System, e: Step)
  {
    match e
    case TryStart(_) => true
    case FinishSetup => true
    case StartWaiting(c) => c !in s.waiters
    case StopWaiting(c) => c in s.waiters
    case EnterLock(_) => s.lock == Free
    case Spawn(c, w, _) => s.lock == ByClient(c) && !s.writerActive && w !in s.writers
    case Register(c, _) => s.lock == ByClient(c) && s.writerActive
    case Notify => true
    case StoreResult(w) => At(s, w, Spawned)
    case Announce(w) => At(s, w, Stored)
    case StoreHeader(w) => At(s, w, Announced)
    // A media writer closes the header channel once, on its way to streaming; an HLS writer tries at every segment.
    case LoadHeader(w) => At(s, w, Ready) || (At(s, w, Streaming) && s.writers[w].hls)
    case CloseHeader(w) => w in s.writers && s.writers[w].pc.Loaded?
    // A writer ends when it is refused a slot, when its stream ends, or when it panics, wherever it is.
    case Withdraw(w) => w in s.writers && !s.writers[w].pc.Ending? && !s.writers[w].pc.Leaving? && !s.writers[w].pc.Lowered?
    case LeaveLock(w) => At(s, w, Ending) && s.lock == Free
    case Lower(w) => At(s, w, Leaving)
    case Leave(w) => At(s, w, Lowered)
  }

  function Move(s: System, w: WriterId, pc: Pc): System
    requires w in s.writers
  {
    s.(writers := s.writers[w := s.writers[w].(pc := pc)])
  }

  function Next(s: System, e: Step): System
    requires Enabled(s, e)
  {
    match e
    case TryStart(_) => if Claims(s) then s.(gate := s.gate.Claim()) else s
    case FinishSetup => s.(gate := s.gate.Finish())
    case StartWaiting(c) =>
      if s.gate.busy && s.gate.wait.Some? then s.(waiters := s.waiters[c := s.gate.wait.value]) else s
    case StopWaiting(c) => s.(waiters := s.waiters - {c})
    case EnterLock(c) => s.(lock := ByClient(c))
    case Spawn(_, w, hls) => s.(writerActive := true, writers := s.writers[w := Writer(Spawned, hls)])
    case Register(_, revives) =>
      if revives then s.(lock := Free, header := HeaderChan(s.gate.nextId), gate := s.gate.(nextId := s.gate.nextId + 1))
      else s.(lock := Free)
    case Notify => s.(gate := s.gate.Notify())
    case StoreResult(w) => Move(s, w, Stored).(lbResult := true)
    case Announce(w) => Move(s, w, Announced).(gate := s.gate.Finish())
    case StoreHeader(w) =>
      Move(s, w, Ready).(header := HeaderChan(s.gate.nextId), gate := s.gate.(nextId := s.gate.nextId + 1),
                         headerDone := if s.writers[w].hls then false else s.headerDone)
    case LoadHeader(w) =>
      if !s.writers[w].hls then Move(s, w, Loaded(s.header))
      else if s.headerDone then Move(s, w, Streaming)
      else Move(s, w, Loaded(s.header)).(headerDone := true)
    case CloseHeader(w) => Move(s, w, Streaming).(gate := s.gate.CloseChan(s.writers[w].pc.ch))
    case Withdraw(w) => Move(s, w, Ending).(lbResult := false)
    case LeaveLock(w) => Move(s, w, Leaving).(lock := ByWriter(w))
    case Lower(w) => Move(s, w, Lowered).(writerActive := false)
    case Leave(w) => s.(writers := s.writers - {w}, lock := Free, gate := s.gate.Finish())
  }

  /** A writer is live from its start until WriterActive is lowered for it. */
  predicate Live(s: System, w: WriterId) { w in s.writers && s.writers[w].pc != Lowered }

  ghost predicate WriterInv(s: System, w: WriterId)
    requires w in s.writers
  {
    var pc := s.writers[w].pc;
    && ((pc.Leaving? || pc.Lowered?) <==> s.lock == ByWriter(w))
    && (pc.Ready? ==> s.header !in s.gate.closed && (s.writers[w].hls ==> !s.headerDone))
    && (pc.Loaded? ==> pc.ch.HeaderChan? && pc.ch.id < s.gate.nextId && pc.ch !in s.gate.closed)
    && ((pc.Loaded? || pc.Streaming?) && s.writers[w].hls ==> s.headerDone)
  }

  ghost predicate Inv(s: System)
  {
    && s.gate.Valid()
    && s.header.HeaderChan? && s.header.id < s.gate.nextId
    && (forall w :: w in s.writers ==> WriterInv(s, w))
    && (forall v, w :: v in s.writers && w in s.writers ==> v == w)
    && (s.writerActive <==> exists w :: Live(s, w))
    && (s.lock.ByWriter? ==> s.lock.w in s.writers)
    && (forall c :: c in s.waiters ==> s.waiters[c] in s.gate.closed || Some(s.waiters[c]) == s.gate.wait)
  }

  lemma NobodyLives(s: System)
    requires Inv(s) && !s.lock.ByWriter?
    ensures !s.writerActive ==> s.writers == map[]
  {
    if s.writers != map[] {
      var w :| w in s.writers;
      assert WriterInv(s, w);
      assert Live(s, w);
    }
  }

  /** One step moves WriterActive only together with the one writer's life. */
  lemma StepKeepsActive(s: System, e: Step)
    requires Inv(s) && Enabled(s, e)
    ensures Next(s, e).writerActive <==> exists w :: Live(Next(s, e), w)
  {
    var t := Next(s, e);
    if e.Spawn? {
      assert Live(t, e.w);
    } else if e.Lower? || e.Leave? {
      assert WriterInv(s, e.w);
      assert forall w :: w in s.writers ==> w == e.w;
      assert !Live(t, e.w);
      assert e.Leave? ==> !Live(s, e.w);
    } else {
      assert forall w :: Live(t, w) <==> Live(s, w);
    }
  }

  lemma StepKeepsGate(s: System, e: Step)
    requires Inv(s) && Enabled(s, e)
    ensures Next(s, e).gate.Valid()
    ensures s.gate.nextId <= Next(s, e).gate.nextId
    ensures forall c :: c in Next(s, e).gate.closed && c !in s.gate.closed ==>
              Some(c) == s.gate.wait || c == s.gate.broadcast || (e.CloseHeader? && s.writers[e.w].pc == Loaded(c))
  {
    if e.CloseHeader? {
      assert WriterInv(s, e.w);
    }
  }

  /** Steps taken by a writer itself. */
  predicate ByWriterItself(e: Step)
  {
    e.StoreResult? || e.Announce? || e.StoreHeader? || e.LoadHeader? || e.CloseHeader? || e.Withdraw? || e.LeaveLock?
    || e.Lower? || e.Leave?
  }

  lemma OwnStepKeepsWriter(s: System, e: Step)
    requires Inv(s) && Enabled(s, e) && ByWriterItself(e) && !e.Leave?
    ensures e.w in s.writers && WriterInv(Next(s, e), e.w)
  {
    assert WriterInv(s, e.w);
    StepKeepsGate(s, e);
  }

  lemma OtherStepKeepsWriter(s: System, e: Step, w: WriterId)
    requires Inv(s) && Enabled(s, e) && !ByWriterItself(e) && w in Next(s, e).writers
    ensures WriterInv(Next(s, e), w)
  {
    assert w in s.writers ==> WriterInv(s, w);
    StepKeepsGate(s, e);
  }

  lemma StepKeepsWaiters(s: System, e: Step, c: ClientId)
    requires Inv(s) && Enabled(s, e) && c in Next(s, e).waiters
    ensures Next(s, e).waiters[c] in Next(s, e).gate.closed || Some(Next(s, e).waiters[c]) == Next(s, e).gate.wait
  {
    assert c in s.waiters ==> s.waiters[c] in s.gate.closed || Some(s.waiters[c]) == s.gate.wait;
  }

  lemma OneWriterAfter(s: System, e: Step)
    requires Inv(s) && Enabled(s, e)
    ensures forall w :: w in Next(s, e).writers ==> w in s.writers || (e.Spawn? && w == e.w && s.writers == map[])
  {
    if e.Spawn? {
      NobodyLives(s);
    }
  }

  lemma StepKeepsInv(s: System, e: Step)
    requires Inv(s) && Enabled(s, e)
    ensures Inv(Next(s, e))
  {
    var t := Next(s, e);
    StepKeepsGate(s, e);
    StepKeepsActive(s, e);
    OneWriterAfter(s, e);
    forall w | w in t.writers
      ensures WriterInv(t, w)
    {
      if !ByWriterItself(e) {
        OtherStepKeepsWriter(s, e, w);
      } else {
        assert w in s.writers && w == e.w;
        OwnStepKeepsWriter(s, e);
      }
    }
    forall c | c in t.waiters
      ensures t.waiters[c] in t.gate.closed || Some(t.waiters[c]) == t.gate.wait
    {
      StepKeepsWaiters(s, e, c);
    }
  }

  ghost predicate IsRun(states: seq<System>, steps: seq<Step>)
  {
    && |states| == |steps| + 1
    && forall i {:trigger steps[i]} :: 0 <= i < |steps| ==>
         Enabled(states[i], steps[i]) && states[i + 1] == Next(states[i], steps[i])
  }

  lemma {:induction false} RunKeepsInv(states: seq<System>, steps: seq<Step>, i: nat)
    requires IsRun(states, steps) && states[0] == Init() && i < |states|
    ensures Inv(states[i])
  {
    if i > 0 {
      RunKeepsInv(states, steps, i - 1);
      StepKeepsInv(states[i - 1], steps[i - 1]);
    }
  }

  /** At most one writer exists at any time, and whoever holds InitializationMu sees WriterActive exactly when
      one is live. */
  lemma SingleWriter(states: seq<System>, steps: seq<Step>, i: nat, v: WriterId, w: WriterId)
    requires IsRun(states, steps) && states[0] == Init() && i < |states|
    ensures v in states[i].writers && w in states[i].writers ==> v == w
    ensures states[i].writerActive <==> exists u :: Live(states[i], u)
    ensures states[i].lock.ByClient? ==> (states[i].writerActive <==> states[i].writers != map[])
  {
    var s := states[i];
    RunKeepsInv(states, steps, i);
    if s.lock.ByClient? && !s.writerActive {
      NobodyLives(s);
    }
  }

  /** No run closes a channel twice: not the header channel, not the broadcast channel, not the gate's. */
  lemma NoDoubleClose(states: seq<System>, steps: seq<Step>, i: nat)
    requires IsRun(states, steps) && states[0] == Init() && i < |states|
    ensures !states[i].gate.panicked
    ensures states[i].gate.busy <==> states[i].gate.wait.Some?
    ensures states[i].gate.wait.Some? ==> states[i].gate.wait.value !in states[i].gate.closed
    ensures states[i].gate.broadcast !in states[i].gate.closed
    ensures forall c :: c in states[i].waiters ==>
              states[i].waiters[c] in states[i].gate.closed || Some(states[i].waiters[c]) == states[i].gate.wait
  {
    RunKeepsInv(states, steps, i);
  }

  /** The writer has published its load-balancer result and not withdrawn it. */
  predicate Publishes(s: System, w: WriterId) {
    w in s.writers && var pc := s.writers[w].pc; pc.Stored? || pc.Announced? || pc.Ready? || pc.Loaded? || pc.Streaming?
  }

  /** A result is there exactly while a writer publishes it. */
  ghost predicate ResultInv(s: System) { s.lbResult <==> exists w :: Publishes(s, w) }

  lemma StepKeepsResult(s: System, e: Step)
    requires Inv(s) && Enabled(s, e) && ResultInv(s)
    ensures ResultInv(Next(s, e))
  {
    var t := Next(s, e);
    if e.StoreResult? {
      assert Publishes(t, e.w);
    } else if e.Withdraw? {
      assert forall w :: w in s.writers ==> w == e.w;
      assert !Publishes(t, e.w);
    } else {
      assert forall w :: Publishes(t, w) <==> Publishes(s, w);
    }
  }

  lemma {:induction false} RunKeepsResult(states: seq<System>, steps: seq<Step>, i: nat)
    requires IsRun(states, steps) && states[0] == Init() && i < |states|
    ensures ResultInv(states[i])
  {
    if i > 0 {
      RunKeepsResult(states, steps, i - 1);
      RunKeepsInv(states, steps, i - 1);
      StepKeepsResult(states[i - 1], steps[i - 1]);
    }
  }

  /** A stream whose writer is gone can be started again: its result is withdrawn and WriterActive is low, so that the gate is
      claimed whenever it is free. */
  lemma NoWriterNoHindrance(states: seq<System>, steps: seq<Step>, i: nat)
    requires IsRun(states, steps) && states[0] == Init() && i < |states| && states[i].writers == map[]
    ensures Claims(states[i]) <==> !states[i].gate.busy
  {
    var s := states[i];
    RunKeepsResult(states, steps, i);
    RunKeepsInv(states, steps, i);
    assert forall w :: !Publishes(s, w);
    assert forall w :: !Live(s, w);
  }

  /** Every waiter has a closed channel, so that it can go on. */
  ghost predicate NobodyWaits(s: System) { forall c :: c in s.waiters ==> s.waiters[c] in s.gate.closed }

  /** And a writer that leaves frees it: the gate can be claimed at once, and nobody waits for an open channel. */
  lemma LeavingFrees(states: seq<System>, steps: seq<Step>, i: nat)
    requires IsRun(states, steps) && states[0] == Init() && i < |steps| && steps[i].Leave?
    ensures Claims(states[i + 1])
    ensures NobodyWaits(states[i + 1])
  {
    RunKeepsInv(states, steps, i);
    RunKeepsInv(states, steps, i + 1);
    var s, t, w := states[i], states[i + 1], steps[i].w;
    assert forall v :: v in s.writers ==> v == w;
    assert t.writers == map[];
    NoWriterNoHindrance(states, steps, i + 1);
  }

  /** A step by which FinishWriterSetup takes effect: by a client, or by a writer coming up or leaving. */
  predicate Releases(s: System, e: Step)
  {
    s.gate.busy && (e.FinishSetup? || e.Announce? || e.Leave?)
  }

  lemma StepKeepsBusy(s: System, e: Step)
    requires Enabled(s, e) && s.gate.busy && !Releases(s, e)
    ensures Next(s, e).gate.busy
  {
  }

  ghost predicate NothingReleases(states: seq<System>, steps: seq<Step>, i: nat, j: nat)
    requires j <= |steps| < |states|
  {
    forall k {:trigger steps[k]} :: i <= k < j ==> !Releases(states[k], steps[k])
  }

  lemma {:induction false} BusyUntilReleased(states: seq<System>, steps: seq<Step>, i: nat, j: nat)
    requires IsRun(states, steps) && i <= j < |states| && states[i].gate.busy
    requires NothingReleases(states, steps, i, j)
    ensures states[j].gate.busy
    decreases j
  {
    if i < j {
      BusyUntilReleased(states, steps, i, j - 1);
      StepKeepsBusy(states[j - 1], steps[j - 1]);
    }
  }

  /** Between two successful claims of the setup gate some release took effect. */
  lemma ClaimsAreSeparated(states: seq<System>, steps: seq<Step>, i: nat, j: nat)
    requires IsRun(states, steps) && i < j < |steps|
    requires steps[i].TryStart? && Claims(states[i]) && steps[j].TryStart? && Claims(states[j])
    ensures exists k :: i < k < j && Releases(states[k], steps[k])
  {
    if NothingReleases(states, steps, i + 1, j) {
      BusyUntilReleased(states, steps, i + 1, j);
    }
  }

  /** A channel that was closed stays closed, so a waiter whose channel is closed can go on for good. */
  lemma {:induction false} ClosedForGood(states: seq<System>, steps: seq<Step>, i: nat, j: nat)
    requires IsRun(states, steps) && i <= j < |states|
    ensures states[i].gate.closed <= states[j].gate.closed
    decreases j
  {
    if i < j {
      ClosedForGood(states, steps, i, j - 1);
      assert states[j] == Next(states[j - 1], steps[j - 1]);
    }
  }
}
