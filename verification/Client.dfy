/**
  The predicting client: it steps ahead of the server, records what it predicted, and when a
  snapshot disagrees goes back to the snapshot and replays three ticks.
 */
module Client {
  import opened Numbers
  import opened Bitwise
  import opened World
  import opened History
  import opened TickControl
  import I = Interpolation
  import RoundTrip

  const CAPACITY := 128
  const LEAD := 3
  const FORWARD := InputMask(1)

  type Record = FrameRecord<WorldState, InputMask>

  /** The client as a value; `log` is everything ever inserted into its history ring. */
  datatype ClientState = ClientState(world: WorldState, log: seq<Record>, predicted: nat, lastServer: nat)

  function Find(log: seq<Record>, t: nat): Option<Record> {
    Lookup(log, CAPACITY, t)
  }

  /** The input replayed for tick `t`: the recorded one, or nothing if there is no record. */
  function RecordedInput(log: seq<Record>, t: nat): InputMask {
    var found := Find(log, t);
    if found.Some? then found.value.input else NO_INPUT
  }

  /** Advance one tick with `input`; the record always claims the forward input. */
  function Advanced(c: ClientState, input: InputMask, hash: WorldState -> nat): ClientState
    requires c.world.positions != []
  {
    var world := StepPhysics(c.world, input);
    c.(world := world,
       predicted := c.predicted + 1,
       log := c.log + [FrameRecord(c.predicted + 1, world, hash(world), FORWARD)])
  }

  /** Predict `n` ticks ahead. */
  function Predicted(c: ClientState, n: nat, hash: WorldState -> nat): (after: ClientState)
    requires c.world.positions != []
    ensures |after.world.positions| == |c.world.positions|
    ensures after.predicted == c.predicted + n && after.lastServer == c.lastServer
  {
    if n == 0 then c else Advanced(Predicted(c, n - 1, hash), FORWARD, hash)
  }

  /** Replay one tick from the history. */
  function ReplayedTick(c: ClientState, hash: WorldState -> nat): ClientState
    requires c.world.positions != []
  {
    Advanced(c, RecordedInput(c.log, c.predicted + 1), hash)
  }

  /** Replay `n` ticks from the history. */
  function Replayed(c: ClientState, n: nat, hash: WorldState -> nat): (after: ClientState)
    requires c.world.positions != []
    ensures |after.world.positions| == |c.world.positions|
    ensures after.predicted == c.predicted + n && after.lastServer == c.lastServer
  {
    if n == 0 then c else ReplayedTick(Replayed(c, n - 1, hash), hash)
  }

  predicate MustRollBack(c: ClientState, tick: nat, stateHash: nat) {
    Find(c.log, tick).Some? && Find(c.log, tick).value.stateHash != stateHash
  }

  function SnapshotTaken(c: ClientState, tick: nat, stateHash: nat, pos: FixedVec3, hash: WorldState -> nat):
      ClientState
  {
    if MustRollBack(c, tick, stateHash) then
      Replayed(ClientState(WorldState([pos]), c.log, tick, tick), LEAD, hash)
    else
      c.(lastServer := tick)
  }

  // ---------- measuring the round trip ----------

  const MAX_DISPATCHED := 128

  /** The round trip in force, and when the input of each tick was sent. */
  datatype Timing = Timing(rttMs: nat, dispatched: map<nat, nat>)

  /** A snapshot answers the input of tick `lastInput`, if that is still waiting for an answer. */
  function Measured(t: Timing, lastInput: nat, now: nat): Timing {
    if lastInput in t.dispatched then
      var sent := t.dispatched[lastInput];
      Timing(if sent <= now then now - sent else 0, t.dispatched - {lastInput})
    else t
  }

  /** The inputs of the `n` ticks after `tick` are sent. */
  function Dispatched(t: Timing, tick: nat, n: nat, now: nat): Timing {
    if n == 0 then t
    else
      var before := Dispatched(t, tick, n - 1, now);
      before.(dispatched := before.dispatched[tick + n := now])
  }

  /** Once too many inputs wait, those of ticks before the server's are forgotten. */
  function Pruned(t: Timing, serverTick: nat): Timing {
    if |t.dispatched| > MAX_DISPATCHED then
      t.(dispatched := map k | k in t.dispatched && k >= serverTick :: t.dispatched[k])
    else t
  }

  /** The input packet of a tick. */
  function ForwardPacket(tick: nat): Bytes {
    RoundTrip.InputPacket(RoundTrip.Input(tick, FORWARD.bits))
  }

  class GameClient {
    const hash: WorldState -> nat
    const history: HistoryBuffer<WorldState, InputMask>
    const interpolator: I.Interpolator<WorldState>
    var world: WorldState
    var predictedTick: nat
    var lastServerTick: nat
    var currentRttMs: nat
    var dispatchTimes: map<nat, nat>

    ghost predicate Valid()
      reads this, history, history.buffer, interpolator
    {
      history.Valid() && history.Capacity() == CAPACITY && world.positions != [] && interpolator.Valid()
    }

    ghost function Value(): ClientState
      reads this, history
    {
      ClientState(world, history.log, predictedTick, lastServerTick)
    }

    ghost function Clock(): Timing
      reads this
    {
      Timing(currentRttMs, dispatchTimes)
    }

    /** The client once the first snapshot has arrived. */
    constructor (hash: WorldState -> nat, tick: nat, pos: FixedVec3)
      ensures Valid() && fresh(history) && fresh(history.buffer) && fresh(interpolator) && this.hash == hash
      ensures Value() == ClientState(WorldState([pos]), [], tick + LEAD, tick)
      ensures Clock() == Timing(0, map[]) && interpolator.pushed == [I.Snapshot(tick, WorldState([pos]))]
    {
      this.hash := hash;
      assert Pow2(7) == 128;
      history := new HistoryBuffer(128, 7);
      interpolator := new I.Interpolator(128);
      world := WorldState([pos]);
      lastServerTick := tick;
      predictedTick := tick + LEAD;
      currentRttMs := 0;
      dispatchTimes := map[];
      new;
      interpolator.PushSnapshot(I.Snapshot(tick, world));
    }

    /** The tick is counted, the world steps, and the frame is recorded. */
    method StepAndRecord(input: InputMask)
      requires Valid()
      modifies this`world, this`predictedTick, history, history.buffer
      ensures Valid()
      ensures Value() == Advanced(old(Value()), input, hash) && predictedTick == old(predictedTick) + 1
    {
      predictedTick := predictedTick + 1;
      world := StepPhysics(world, input);
      history.Insert(FrameRecord(predictedTick, world, hash(world), FORWARD));
    }

    method TakeSnapshot(tick: nat, stateHash: nat, lastInput: nat, pos: FixedVec3, now: nat) returns (rolledBack: bool)
      requires Valid()
      modifies this, history, history.buffer, interpolator
      ensures Valid()
      ensures Value() == SnapshotTaken(old(Value()), tick, stateHash, pos, hash)
      ensures rolledBack == MustRollBack(old(Value()), tick, stateHash)
      ensures Clock() == Measured(old(Clock()), lastInput, now)
      ensures interpolator.pushed == old(interpolator.pushed) + [I.Snapshot(tick, WorldState([pos]))]
    {
      hide SnapshotTaken, Replayed;
      Measure(lastInput, now);
      interpolator.PushSnapshot(I.Snapshot(tick, WorldState([pos])));
      rolledBack := Compare(tick, stateHash, pos);
    }

    method Measure(lastInput: nat, now: nat)
      requires Valid()
      modifies this`currentRttMs, this`dispatchTimes
      ensures Valid()
      ensures Clock() == Measured(old(Clock()), lastInput, now)
    {
      if lastInput in dispatchTimes {
        var sent := dispatchTimes[lastInput];
        dispatchTimes := dispatchTimes - {lastInput};
        currentRttMs := if sent <= now then now - sent else 0;
      }
    }

    /** The comparison with what was predicted for `tick`, and the rollback. */
    method Compare(tick: nat, stateHash: nat, pos: FixedVec3) returns (rolledBack: bool)
      requires Valid()
      modifies this`world, this`predictedTick, this`lastServerTick, history, history.buffer
      ensures Valid()
      ensures Value() == SnapshotTaken(old(Value()), tick, stateHash, pos, hash)
      ensures rolledBack == MustRollBack(old(Value()), tick, stateHash)
    {
      lastServerTick := tick;
      var local := history.Get(tick);
      if local.Some? && local.value.stateHash != stateHash {
        world := WorldState([pos]);
        predictedTick := tick;
        Replay(tick);
        return true;
      }
      return false;
    }

    method Replay(tick: nat)
      requires Valid() && predictedTick == tick
      modifies this`world, this`predictedTick, history, history.buffer
      ensures Valid()
      ensures Value() == Replayed(old(Value()), LEAD, hash)
    {
      hide ReplayedTick, HistoryBuffer.Valid, I.Interpolator.Valid;
      ghost var start := Value();
      while predictedTick < tick + LEAD
        invariant Valid()
        invariant tick <= predictedTick <= tick + LEAD
        invariant Value() == Replayed(start, predictedTick - tick, hash)
      {
        ReplayOne();
      }
    }

    method ReplayOne()
      requires Valid()
      modifies this`world, this`predictedTick, history, history.buffer
      ensures Valid()
      ensures Value() == ReplayedTick(old(Value()), hash) && predictedTick == old(predictedTick) + 1
    {
      hide Advanced, Lookup;
      var recorded := history.Get(predictedTick + 1);
      StepAndRecord(if recorded.Some? then recorded.value.input else NO_INPUT);
    }

    /** One tick is predicted and its input sent. */
    method PredictOne(now: nat) returns (packet: Bytes)
      requires Valid()
      modifies this`world, this`predictedTick, this`dispatchTimes, history, history.buffer
      ensures Valid() && predictedTick == old(predictedTick) + 1 && packet == ForwardPacket(predictedTick)
      ensures Value() == Advanced(old(Value()), FORWARD, hash)
      ensures Clock() == old(Clock()).(dispatched := old(Clock()).dispatched[predictedTick := now])
    {
      hide Advanced, HistoryBuffer.Valid, I.Interpolator.Valid;
      StepAndRecord(FORWARD);
      packet := ForwardPacket(predictedTick);
      dispatchTimes := dispatchTimes[predictedTick := now];
    }

    /** One pass of the tick controller; `packets` are the input packets it queues for the server. */
    method Steer(now: nat) returns (packets: seq<Bytes>)
      requires Valid()
      modifies this, history, history.buffer
      ensures Valid() && currentRttMs == old(currentRttMs)
      ensures var steps := StepsThisLoop(old(predictedTick), TargetTick(lastServerTick, currentRttMs));
              && Value() == Predicted(old(Value()), steps, hash)
              && Clock() == Pruned(Dispatched(old(Clock()), old(predictedTick), steps, now), lastServerTick)
              && |packets| == steps
              && forall i :: 0 <= i < steps ==> packets[i] == ForwardPacket(old(predictedTick) + 1 + i)
    {
      hide Advanced, ForwardPacket, HistoryBuffer.Valid, I.Interpolator.Valid, HistoryBuffer.Capacity;
      var steps := StepsThisLoop(predictedTick, TargetTick(lastServerTick, currentRttMs));
      ghost var start, clock := Value(), Clock();
      packets := [];
      for i := 0 to steps
        invariant Valid() && Value() == Predicted(start, i, hash)
        invariant Clock() == Dispatched(clock, start.predicted, i, now)
        invariant currentRttMs == old(currentRttMs)
        invariant |packets| == i && forall k :: 0 <= k < i ==> packets[k] == ForwardPacket(start.predicted + 1 + k)
      {
        var packet := PredictOne(now);
        packets := packets + [packet];
      }
      if |dispatchTimes| > MAX_DISPATCHED {
        dispatchTimes := map k | k in dispatchTimes && k >= lastServerTick :: dispatchTimes[k];
      }
    }
  }

  /** The controller's packets are read by the server as the forward input of their ticks. */
  lemma ForwardPacketIsRead(tick: nat)
    requires tick < 0x1_0000_0000_0000_0000
    ensures RoundTrip.ParseInput(ForwardPacket(tick)) == Some(RoundTrip.Input(tick, 1))
  {
    RoundTrip.InputRoundTrip(RoundTrip.Input(tick, 1));
  }

  // ---------- replay ----------

  /** The recorded inputs of the `n` ticks after `tick`. */
  function RecordedInputs(log: seq<Record>, tick: nat, n: nat): (inputs: seq<InputMask>)
    ensures |inputs| == n
  {
    if n == 0 then [] else RecordedInputs(log, tick, n - 1) + [RecordedInput(log, tick + n)]
  }

  /** A record of another tick less than a capacity away goes to another slot. */
  lemma InsertElsewhere(log: seq<Record>, record: Record, t: nat)
    requires t < record.tick < t + CAPACITY || record.tick < t < record.tick + CAPACITY
    ensures Find(log + [record], t) == Find(log, t)
  {
    if t < record.tick {
      SameSlotFarApart(t, record.tick, CAPACITY);
    } else {
      SameSlotFarApart(record.tick, t, CAPACITY);
    }
    LookupAfterInsert(log, CAPACITY, record, t);
  }

  lemma AdvanceElsewhere(c: ClientState, input: InputMask, t: nat, hash: WorldState -> nat)
    requires c.world.positions != []
    requires t <= c.predicted < t + CAPACITY - 1 || c.predicted + 1 < t <= c.predicted + CAPACITY
    ensures Find(Advanced(c, input, hash).log, t) == Find(c.log, t)
  {
    var world := StepPhysics(c.world, input);
    hide Find, StepPhysics;
    InsertElsewhere(c.log, FrameRecord(c.predicted + 1, world, hash(world), FORWARD), t);
  }

  lemma ReplayedTickElsewhere(c: ClientState, t: nat, hash: WorldState -> nat)
    requires c.world.positions != []
    requires t <= c.predicted < t + CAPACITY - 1 || c.predicted + 1 < t <= c.predicted + CAPACITY
    ensures Find(ReplayedTick(c, hash).log, t) == Find(c.log, t)
  {
    AdvanceElsewhere(c, RecordedInput(c.log, c.predicted + 1), t, hash);
  }

  /** Replaying does not disturb the inputs it has yet to read, nor the record it started from. */
  lemma {:induction false} ReplayKeepsOtherRecords(c: ClientState, n: nat, t: nat, hash: WorldState -> nat)
    requires c.world.positions != [] && n < CAPACITY
    requires t == c.predicted || c.predicted + n < t < c.predicted + CAPACITY
    ensures Find(Replayed(c, n, hash).log, t) == Find(c.log, t)
  {
    hide Find, ReplayedTick;
    if n > 0 {
      ReplayKeepsOtherRecords(c, n - 1, t, hash);
      ReplayedTickElsewhere(Replayed(c, n - 1, hash), t, hash);
    }
  }

  lemma ReplayedOneMore(c: ClientState, n: nat, hash: WorldState -> nat)
    requires c.world.positions != [] && 0 < n < CAPACITY
    ensures Replayed(c, n, hash) == Advanced(Replayed(c, n - 1, hash), RecordedInput(c.log, c.predicted + n), hash)
  {
    hide Advanced, Find;
    ReplayKeepsOtherRecords(c, n - 1, c.predicted + n, hash);
  }

  /** The world after a replay is the snapshot folded over the inputs recorded before it. */
  lemma {:induction false} ReplayFoldsRecordedInputs(c: ClientState, n: nat, hash: WorldState -> nat)
    requires c.world.positions != [] && n < CAPACITY
    ensures Replayed(c, n, hash).world == Simulate(c.world, RecordedInputs(c.log, c.predicted, n))
  {
    if n > 0 {
      hide StepPhysics, RecordedInput, Replayed, Simulate;
      ReplayFoldsRecordedInputs(c, n - 1, hash);
      ReplayedOneMore(c, n, hash);
      SimulateOneMore(c.world, RecordedInputs(c.log, c.predicted, n - 1), RecordedInput(c.log, c.predicted + n));
    }
  }

  /** A rollback ends three ticks past the snapshot with the world folded over the recorded inputs. */
  lemma RollbackFoldsRecordedInputs(c: ClientState, tick: nat, stateHash: nat, pos: FixedVec3,
                                    hash: WorldState -> nat)
    requires MustRollBack(c, tick, stateHash)
    ensures var after := SnapshotTaken(c, tick, stateHash, pos, hash);
            && after.predicted == tick + LEAD
            && after.world == Simulate(WorldState([pos]), RecordedInputs(c.log, tick, LEAD))
  {
    ReplayFoldsRecordedInputs(ClientState(WorldState([pos]), c.log, tick, tick), LEAD, hash);
  }

  /** A rollback leaves the record it disagreed with, so the same snapshot causes it again. */
  lemma SameSnapshotRollsBackAgain(c: ClientState, tick: nat, stateHash: nat, pos: FixedVec3,
                                   hash: WorldState -> nat)
    requires MustRollBack(c, tick, stateHash)
    ensures MustRollBack(SnapshotTaken(c, tick, stateHash, pos, hash), tick, stateHash)
  {
    ReplayKeepsOtherRecords(ClientState(WorldState([pos]), c.log, tick, tick), LEAD, tick, hash);
  }

  lemma SimulateOneMore(w: WorldState, inputs: seq<InputMask>, input: InputMask)
    requires w.positions != []
    ensures Simulate(w, inputs + [input]) == StepPhysics(Simulate(w, inputs), input)
  {
    assert (inputs + [input])[..|inputs|] == inputs;
  }

  // ---------- agreement with the server ----------

  /** The server's trajectory from tick `t0` on, whatever inputs it applies. */
  ghost predicate Steps(server: nat -> WorldState, applied: nat -> InputMask, t0: nat) {
    forall t: nat | t >= t0 :: StepsAt(server, applied, t)
  }

  predicate StepsAt(server: nat -> WorldState, applied: nat -> InputMask, t: nat) {
    && |server(t).positions| == 1
    && server(t + 1) == StepPhysics(server(t), applied(t + 1))
  }

  /** Every input the server applies after tick `t0` moves the world. */
  ghost predicate MovingServer(server: nat -> WorldState, applied: nat -> InputMask, t0: nat) {
    Steps(server, applied, t0) && forall t: nat | t > t0 :: Moves(applied(t))
  }

  /** The client is where the server is, and so is every record of the ticks after `t0`. */
  ghost predicate Synced(c: ClientState, server: nat -> WorldState, t0: nat, hash: WorldState -> nat) {
    && c.predicted >= t0
    && c.world == server(c.predicted)
    && (forall t: nat | t0 < t <= c.predicted && Find(c.log, t).Some? ::
          Find(c.log, t).value.state == server(t) && Find(c.log, t).value.stateHash == hash(server(t)))
  }

  /** Do two inputs have the same effect on the world? */
  predicate SameEffect(a: InputMask, b: InputMask) {
    Moves(a) <==> Moves(b)
  }

  lemma AdvanceKeepsSynced(c: ClientState, input: InputMask, server: nat -> WorldState,
                           applied: nat -> InputMask, t0: nat, hash: WorldState -> nat)
    requires Steps(server, applied, t0) && Synced(c, server, t0, hash)
    requires c.world.positions != [] && SameEffect(input, applied(c.predicted + 1))
    ensures Synced(Advanced(c, input, hash), server, t0, hash)
  {
    assert StepsAt(server, applied, c.predicted);
    var after := Advanced(c, input, hash);
    var written := after.log[|after.log| - 1];
    forall t: nat | t0 < t <= after.predicted && Find(after.log, t).Some?
      ensures Find(after.log, t).value.state == server(t)
      ensures Find(after.log, t).value.stateHash == hash(server(t))
    {
      LookupAfterInsert(c.log, CAPACITY, written, t);
    }
  }

  lemma {:induction false} PredictionKeepsSynced(c: ClientState, n: nat, server: nat -> WorldState,
                                                 applied: nat -> InputMask, t0: nat, hash: WorldState -> nat)
    requires MovingServer(server, applied, t0) && Synced(c, server, t0, hash) && c.world.positions != []
    ensures Synced(Predicted(c, n, hash), server, t0, hash)
  {
    if n > 0 {
      PredictionKeepsSynced(c, n - 1, server, applied, t0, hash);
      ForwardMoves();
      AdvanceKeepsSynced(Predicted(c, n - 1, hash), FORWARD, server, applied, t0, hash);
    }
  }

  lemma ForwardMoves()
    ensures Moves(FORWARD) && !Moves(NO_INPUT)
  {}

  /** For each of the `n` ticks after `tick` the input to be replayed has the effect of the one the server applied. */
  predicate InputsAgree(log: seq<Record>, applied: nat -> InputMask, tick: nat, n: nat) {
    n == 0
    || (InputsAgree(log, applied, tick, n - 1) && SameEffect(RecordedInput(log, tick + n), applied(tick + n)))
  }

  /** Each of the first `n` replayed worlds is the server's. */
  predicate WorldsAgree(c: ClientState, server: nat -> WorldState, n: nat, hash: WorldState -> nat)
    requires c.world.positions != []
  {
    n == 0
    || (WorldsAgree(c, server, n - 1, hash) && Replayed(c, n, hash).world == server(c.predicted + n))
  }

  lemma SameEffectExactly(w: WorldState, a: InputMask, b: InputMask)
    requires w.positions != []
    ensures StepPhysics(w, a) == StepPhysics(w, b) <==> SameEffect(a, b)
  {
    assert StepPhysics(w, a).positions[0].x == w.positions[0].x + if Moves(a) then 10 else 0;
    assert StepPhysics(w, b).positions[0].x == w.positions[0].x + if Moves(b) then 10 else 0;
  }

  lemma ReplayedWorld(c: ClientState, n: nat, server: nat -> WorldState, hash: WorldState -> nat)
    requires c.world.positions != [] && c.world == server(c.predicted) && WorldsAgree(c, server, n, hash)
    ensures Replayed(c, n, hash).world == server(c.predicted + n)
  {
    hide ReplayedTick;
  }

  lemma ReplayedWorldStep(c: ClientState, n: nat, hash: WorldState -> nat)
    requires c.world.positions != [] && 0 < n < CAPACITY
    ensures Replayed(c, n, hash).world ==
            StepPhysics(Replayed(c, n - 1, hash).world, RecordedInput(c.log, c.predicted + n))
  {
    hide StepPhysics, Find, Replayed, RecordedInput;
    ReplayedOneMore(c, n, hash);
  }

  lemma ServerStep(server: nat -> WorldState, applied: nat -> InputMask, t0: nat, t: nat)
    requires Steps(server, applied, t0) && t >= t0
    ensures server(t).positions != [] && server(t + 1) == StepPhysics(server(t), applied(t + 1))
  {
    hide StepPhysics;
    assert StepsAt(server, applied, t);
  }

  /** One more replayed world is the server's exactly when the inputs of that tick have the same effect. */
  lemma NextWorldAgreesExactly(c: ClientState, n: nat, server: nat -> WorldState, applied: nat -> InputMask,
                               hash: WorldState -> nat)
    requires Steps(server, applied, c.predicted) && c.world == server(c.predicted)
    requires c.world.positions != [] && 0 < n < CAPACITY && WorldsAgree(c, server, n - 1, hash)
    ensures Replayed(c, n, hash).world == server(c.predicted + n) <==>
            SameEffect(RecordedInput(c.log, c.predicted + n), applied(c.predicted + n))
  {
    hide StepPhysics, Find, Replayed, SameEffect, RecordedInput, WorldsAgree, Steps;
    ReplayedWorld(c, n - 1, server, hash);
    ReplayedWorldStep(c, n, hash);
    ServerStep(server, applied, c.predicted, c.predicted + n - 1);
    SameEffectExactly(server(c.predicted + n - 1), RecordedInput(c.log, c.predicted + n), applied(c.predicted + n));
  }

  /** A replay follows any server tick by tick exactly when every replayed input has the effect of the applied one. */
  lemma {:induction false} WorldsAgreeExactly(c: ClientState, n: nat, server: nat -> WorldState,
                                              applied: nat -> InputMask, hash: WorldState -> nat)
    requires Steps(server, applied, c.predicted) && c.world == server(c.predicted)
    requires c.world.positions != [] && n < CAPACITY
    ensures WorldsAgree(c, server, n, hash) <==> InputsAgree(c.log, applied, c.predicted, n)
  {
    hide Replayed, SameEffect, RecordedInput, Steps;
    if n > 0 {
      WorldsAgreeExactly(c, n - 1, server, applied, hash);
      if WorldsAgree(c, server, n - 1, hash) {
        NextWorldAgreesExactly(c, n, server, applied, hash);
      }
    }
  }

  lemma {:induction false} ReplayKeepsSynced(c: ClientState, n: nat, server: nat -> WorldState,
                                             applied: nat -> InputMask, hash: WorldState -> nat)
    requires Steps(server, applied, c.predicted) && c.world == server(c.predicted)
    requires c.world.positions != [] && n < CAPACITY
    requires InputsAgree(c.log, applied, c.predicted, n)
    ensures Synced(Replayed(c, n, hash), server, c.predicted, hash)
  {
    hide Synced, Steps, SameEffect, RecordedInput, ReplayedTick;
    if n == 0 {
      SyncedAtStart(c, server, hash);
    } else {
      ReplayKeepsSynced(c, n - 1, server, applied, hash);
      ReplayStepKeepsSynced(c, n, server, applied, hash);
    }
  }

  lemma SyncedAtStart(c: ClientState, server: nat -> WorldState, hash: WorldState -> nat)
    requires c.world == server(c.predicted)
    ensures Synced(c, server, c.predicted, hash)
  {}

  lemma ReplayStepKeepsSynced(c: ClientState, n: nat, server: nat -> WorldState, applied: nat -> InputMask,
                              hash: WorldState -> nat)
    requires Steps(server, applied, c.predicted) && c.world.positions != [] && 0 < n < CAPACITY
    requires Synced(Replayed(c, n - 1, hash), server, c.predicted, hash)
    requires SameEffect(RecordedInput(c.log, c.predicted + n), applied(c.predicted + n))
    ensures Synced(Replayed(c, n, hash), server, c.predicted, hash)
  {
    hide Synced, Steps, SameEffect, RecordedInput, Advanced, Find, Replayed;
    ReplayedOneMore(c, n, hash);
    AdvanceKeepsSynced(Replayed(c, n - 1, hash), RecordedInput(c.log, c.predicted + n), server, applied,
                       c.predicted, hash);
  }

  lemma AdvanceIsRecorded(c: ClientState, input: InputMask, hash: WorldState -> nat)
    requires c.world.positions != []
    ensures var after := Advanced(c, input, hash);
            Find(after.log, after.predicted).Some? && Find(after.log, after.predicted).value.state == after.world
  {
    hide StepPhysics, Lookup;
    var after := Advanced(c, input, hash);
    LookupAfterInsert(c.log, CAPACITY, after.log[|after.log| - 1], after.predicted);
  }

  /** The record of each replayed tick is found, and holds the world the replay had reached there. */
  lemma {:induction false} ReplayIsRecorded(c: ClientState, n: nat, i: nat, hash: WorldState -> nat)
    requires c.world.positions != [] && 0 < i <= n < CAPACITY
    ensures Find(Replayed(c, n, hash).log, c.predicted + i).Some?
    ensures Find(Replayed(c, n, hash).log, c.predicted + i).value.state == Replayed(c, i, hash).world
  {
    hide Advanced, Find, RecordedInput;
    var before := Replayed(c, n - 1, hash);
    if i == n {
      AdvanceIsRecorded(before, RecordedInput(before.log, before.predicted + 1), hash);
    } else {
      hide ReplayedTick;
      ReplayIsRecorded(c, n - 1, i, hash);
      ReplayedTickElsewhere(before, c.predicted + i, hash);
    }
  }

  lemma {:induction false} SyncedWorldsAgree(c: ClientState, n: nat, k: nat, server: nat -> WorldState,
                                             hash: WorldState -> nat)
    requires c.world.positions != [] && k <= n < CAPACITY
    requires Synced(Replayed(c, n, hash), server, c.predicted, hash)
    ensures WorldsAgree(c, server, k, hash)
  {
    hide Find, Replayed;
    if k > 0 {
      ReplayIsRecorded(c, n, k, hash);
      assert Find(Replayed(c, n, hash).log, c.predicted + k).value.state == server(c.predicted + k);
      hide Synced;
      SyncedWorldsAgree(c, n, k - 1, server, hash);
    }
  }

  /**
    The exact condition, for any server: a rollback to its state at `tick` leaves world and records
    in agreement with it if and only if each of the three replayed inputs has the effect of the one
    the server applied; and the world alone agrees if and only if as many of them move it.
   */
  lemma RollbackAgreesExactly(c: ClientState, tick: nat, stateHash: nat, pos: FixedVec3,
                              server: nat -> WorldState, applied: nat -> InputMask, hash: WorldState -> nat)
    requires Steps(server, applied, tick) && server(tick) == WorldState([pos])
    requires MustRollBack(c, tick, stateHash)
    ensures var after := SnapshotTaken(c, tick, stateHash, pos, hash);
            && (Synced(after, server, tick, hash) <==> InputsAgree(c.log, applied, tick, LEAD))
            && (after.world == server(after.predicted) <==>
                Moving(RecordedInputs(c.log, tick, LEAD)) == Moving(AppliedInputs(applied, tick, LEAD)))
  {
    var start := ClientState(WorldState([pos]), c.log, tick, tick);
    hide Synced, InputsAgree, Replayed, RecordedInputs, AppliedInputs, Moving, Simulate, Steps, Find;
    RecordsAgreeExactly(start, server, applied, hash);
    ReplayFoldsRecordedInputs(start, LEAD, hash);
    ServerFoldsAppliedInputs(server, applied, tick, LEAD);
    SameMovesSameWorld(start.world, RecordedInputs(c.log, tick, LEAD), AppliedInputs(applied, tick, LEAD));
  }

  lemma SameMovesSameWorld(w: WorldState, a: seq<InputMask>, b: seq<InputMask>)
    requires w.positions != []
    ensures Simulate(w, a) == Simulate(w, b) <==> Moving(a) == Moving(b)
  {
    hide Simulate, Moving;
    SimulateCountsMoves(w, a);
    SimulateCountsMoves(w, b);
    assert Simulate(w, a).positions[0].x == w.positions[0].x + 10 * Moving(a);
    assert Simulate(w, b).positions[0].x == w.positions[0].x + 10 * Moving(b);
  }

  lemma RecordsAgreeExactly(start: ClientState, server: nat -> WorldState, applied: nat -> InputMask,
                            hash: WorldState -> nat)
    requires Steps(server, applied, start.predicted) && start.world == server(start.predicted)
    requires start.world.positions != []
    ensures Synced(Replayed(start, LEAD, hash), server, start.predicted, hash) <==>
            InputsAgree(start.log, applied, start.predicted, LEAD)
  {
    hide Synced, InputsAgree, Replayed, Find, WorldsAgree;
    WorldsAgreeExactly(start, LEAD, server, applied, hash);
    if InputsAgree(start.log, applied, start.predicted, LEAD) {
      ReplayKeepsSynced(start, LEAD, server, applied, hash);
    } else if Synced(Replayed(start, LEAD, hash), server, start.predicted, hash) {
      SyncedWorldsAgree(start, LEAD, LEAD, server, hash);
      assert false;
    }
  }

  function AppliedInputs(applied: nat -> InputMask, tick: nat, n: nat): (inputs: seq<InputMask>)
    ensures |inputs| == n
  {
    if n == 0 then [] else AppliedInputs(applied, tick, n - 1) + [applied(tick + n)]
  }

  lemma {:induction false} ServerFoldsAppliedInputs(server: nat -> WorldState, applied: nat -> InputMask, tick: nat,
                                                    n: nat)
    requires Steps(server, applied, tick)
    ensures server(tick).positions != []
    ensures server(tick + n) == Simulate(server(tick), AppliedInputs(applied, tick, n))
  {
    hide Steps, StepPhysics, Simulate;
    ServerStep(server, applied, tick, tick);
    if n == 0 {
      SimulateNothing(server(tick));
    } else {
      ServerFoldsAppliedInputs(server, applied, tick, n - 1);
      ServerFoldsOneMore(server, applied, tick, n);
    }
  }

  lemma SimulateNothing(w: WorldState)
    requires w.positions != []
    ensures Simulate(w, []) == w
  {}

  lemma ServerFoldsOneMore(server: nat -> WorldState, applied: nat -> InputMask, tick: nat, n: nat)
    requires Steps(server, applied, tick) && n > 0 && server(tick).positions != []
    requires server(tick + n - 1) == Simulate(server(tick), AppliedInputs(applied, tick, n - 1))
    ensures server(tick + n) == Simulate(server(tick), AppliedInputs(applied, tick, n))
  {
    hide Steps, StepPhysics, Simulate;
    ServerStep(server, applied, tick, tick + n - 1);
    SimulateOneMore(server(tick), AppliedInputs(applied, tick, n - 1), applied(tick + n));
  }

  /** The history holds a moving input for each of the `n` ticks after `tick`. */
  predicate RecordsMove(log: seq<Record>, tick: nat, n: nat) {
    n == 0 || (RecordsMove(log, tick, n - 1) && Moves(RecordedInput(log, tick + n)))
  }

  /** Does the history hold a moving input for each of the three ticks to replay? */
  predicate ReplayIsComplete(log: seq<Record>, tick: nat) {
    RecordsMove(log, tick, LEAD)
  }

  lemma {:induction false} MovingOfRecorded(log: seq<Record>, tick: nat, n: nat)
    ensures Moving(RecordedInputs(log, tick, n)) <= n
    ensures Moving(RecordedInputs(log, tick, n)) == n <==> RecordsMove(log, tick, n)
  {
    hide Moves, RecordedInput;
    if n > 0 {
      MovingOfRecorded(log, tick, n - 1);
      hide Moving;
      MovingOneMore(RecordedInputs(log, tick, n - 1), RecordedInput(log, tick + n));
    }
  }

  lemma {:induction false} MovingInputsAgree(log: seq<Record>, server: nat -> WorldState, applied: nat -> InputMask,
                                             tick: nat, n: nat)
    requires MovingServer(server, applied, tick)
    ensures InputsAgree(log, applied, tick, n) <==> RecordsMove(log, tick, n)
    ensures Moving(AppliedInputs(applied, tick, n)) == n
  {
    hide Moves, RecordedInput, Steps;
    if n > 0 {
      MovingInputsAgree(log, server, applied, tick, n - 1);
      assert Moves(applied(tick + n));
      hide MovingServer, Moving;
      MovingOneMore(AppliedInputs(applied, tick, n - 1), applied(tick + n));
    }
  }

  lemma MovingOneMore(inputs: seq<InputMask>, input: InputMask)
    ensures Moving(inputs + [input]) == Moving(inputs) + if Moves(input) then 1 else 0
  {
    assert (inputs + [input])[..|inputs|] == inputs;
  }

  /** Against a server that always moves, both conditions come to a moving record for each of the three ticks. */
  lemma RollbackAgreesWithMovingServer(c: ClientState, tick: nat, stateHash: nat, pos: FixedVec3,
                                       server: nat -> WorldState, applied: nat -> InputMask, hash: WorldState -> nat)
    requires MovingServer(server, applied, tick) && server(tick) == WorldState([pos])
    requires MustRollBack(c, tick, stateHash)
    ensures var after := SnapshotTaken(c, tick, stateHash, pos, hash);
            && (Synced(after, server, tick, hash) <==> ReplayIsComplete(c.log, tick))
            && (after.world == server(after.predicted) <==> ReplayIsComplete(c.log, tick))
  {
    RollbackAgreesExactly(c, tick, stateHash, pos, server, applied, hash);
    MovingInputsAgree(c.log, server, applied, tick, LEAD);
    MovingOfRecorded(c.log, tick, LEAD);
    hide Synced, Find, SnapshotTaken, Moving, RecordedInputs, AppliedInputs, InputsAgree, RecordsMove;
  }

  // ---------- the same snapshot again ----------

  /** Every tick that was replayed is recorded with the forward input, whatever was replayed for it. */
  lemma {:induction false} ReplayRecordsForward(c: ClientState, n: nat, i: nat, hash: WorldState -> nat)
    requires c.world.positions != [] && 0 < i <= n < CAPACITY
    ensures RecordedInput(Replayed(c, n, hash).log, c.predicted + i) == FORWARD
  {
    hide Advanced, Find;
    var before := Replayed(c, n - 1, hash);
    if i == n {
      AdvanceRecordsForward(before, RecordedInput(before.log, before.predicted + 1), hash);
    } else {
      hide ReplayedTick;
      ReplayRecordsForward(c, n - 1, i, hash);
      ReplayedTickElsewhere(before, c.predicted + i, hash);
    }
  }

  lemma AdvanceRecordsForward(c: ClientState, input: InputMask, hash: WorldState -> nat)
    requires c.world.positions != []
    ensures RecordedInput(Advanced(c, input, hash).log, c.predicted + 1) == FORWARD
  {
    hide StepPhysics, Lookup;
    var after := Advanced(c, input, hash);
    LookupAfterInsert(c.log, CAPACITY, after.log[|after.log| - 1], after.predicted);
  }

  lemma {:induction false} ReplayRecordsMove(c: ClientState, n: nat, k: nat, hash: WorldState -> nat)
    requires c.world.positions != [] && k <= n < CAPACITY
    ensures RecordsMove(Replayed(c, n, hash).log, c.predicted, k)
  {
    hide RecordedInput, Moves, Replayed;
    if k > 0 {
      ReplayRecordsMove(c, n, k - 1, hash);
      ReplayRecordsForward(c, n, k, hash);
      ForwardMoves();
    }
  }

  /** Three moving inputs go 30 mm, and fewer than three go less far. */
  lemma MovingRecordsGoFurthest(pos: FixedVec3, log: seq<Record>, tick: nat)
    ensures var w := Simulate(WorldState([pos]), RecordedInputs(log, tick, LEAD));
            w == WorldState([pos.(x := pos.x + 30)]) <==> ReplayIsComplete(log, tick)
  {
    var start, inputs := WorldState([pos]), RecordedInputs(log, tick, LEAD);
    hide RecordedInputs, Simulate, Moving, RecordsMove;
    MovingOfRecorded(log, tick, LEAD);
    SimulateCountsMoves(start, inputs);
    assert Simulate(start, inputs).positions[0].x == pos.x + 10 * Moving(inputs);
  }

  /**
    The second rollback by the same snapshot ends in the world of the first if and only if the first
    one found a moving input for each of its three ticks; otherwise the client jumps ahead.
   */
  lemma SecondRollbackAgreesExactly(c: ClientState, tick: nat, stateHash: nat, pos: FixedVec3,
                                    hash: WorldState -> nat)
    requires MustRollBack(c, tick, stateHash)
    ensures var once := SnapshotTaken(c, tick, stateHash, pos, hash);
            var twice := SnapshotTaken(once, tick, stateHash, pos, hash);
            && twice.predicted == once.predicted
            && twice.world == WorldState([pos.(x := pos.x + 30)])
            && (twice.world == once.world <==> ReplayIsComplete(c.log, tick))
  {
    var start := ClientState(WorldState([pos]), c.log, tick, tick);
    var once := SnapshotTaken(c, tick, stateHash, pos, hash);
    assert once == Replayed(start, LEAD, hash);
    hide Replayed, Find, RecordedInputs, Simulate, RecordsMove;
    SameSnapshotRollsBackAgain(c, tick, stateHash, pos, hash);
    RollbackFoldsRecordedInputs(c, tick, stateHash, pos, hash);
    RollbackFoldsRecordedInputs(once, tick, stateHash, pos, hash);
    ReplayRecordsMove(start, LEAD, LEAD, hash);
    MovingRecordsGoFurthest(pos, c.log, tick);
    MovingRecordsGoFurthest(pos, once.log, tick);
  }

  // ---------- runs after a rollback ----------

  datatype Event = Steered(rttMs: nat) | Snapshot(tick: nat)

  /** The loop goes on: it steers, or takes the server's own snapshot of some tick. */
  function Next(c: ClientState, event: Event, server: nat -> WorldState, hash: WorldState -> nat): ClientState
    requires c.world.positions != []
  {
    match event
    case Steered(rttMs) => Predicted(c, StepsThisLoop(c.predicted, TargetTick(c.lastServer, rttMs)), hash)
    case Snapshot(tick) =>
      if server(tick).positions == [] then c
      else SnapshotTaken(c, tick, hash(server(tick)), server(tick).positions[0], hash)
  }

  /** Snapshots of ticks after the rollback that the client has already predicted. */
  predicate Timely(c: ClientState, event: Event, t0: nat) {
    event.Snapshot? ==> t0 < event.tick <= c.predicted
  }

  lemma NextKeepsSynced(c: ClientState, event: Event, server: nat -> WorldState, applied: nat -> InputMask,
                        t0: nat, hash: WorldState -> nat)
    requires MovingServer(server, applied, t0) && Synced(c, server, t0, hash) && Timely(c, event, t0)
    ensures c.world.positions != []
    ensures event.Snapshot? ==> !MustRollBack(c, event.tick, hash(server(event.tick)))
    ensures Synced(Next(c, event, server, hash), server, t0, hash)
  {
    assert StepsAt(server, applied, c.predicted);
    if event.Steered? {
      PredictionKeepsSynced(c, StepsThisLoop(c.predicted, TargetTick(c.lastServer, event.rttMs)), server, applied,
                            t0, hash);
    }
  }

  /** The states the client goes through, from `c` on. */
  ghost predicate TimelyRun(c: ClientState, events: seq<Event>, server: nat -> WorldState, t0: nat,
                            hash: WorldState -> nat)
    decreases |events|
  {
    events == []
    || (&& c.world.positions != []
        && Timely(c, events[0], t0)
        && TimelyRun(Next(c, events[0], server, hash), events[1..], server, t0, hash))
  }

  ghost function Rollbacks(c: ClientState, events: seq<Event>, server: nat -> WorldState, t0: nat,
                           hash: WorldState -> nat): nat
    requires TimelyRun(c, events, server, t0, hash)
    decreases |events|
  {
    if events == [] then 0
    else
      (if events[0].Snapshot? && MustRollBack(c, events[0].tick, hash(server(events[0].tick))) then 1 else 0)
      + Rollbacks(Next(c, events[0], server, hash), events[1..], server, t0, hash)
  }

  /** Once a rollback has agreed with the server, no timely snapshot ever causes another. */
  lemma {:induction false} NoFurtherRollback(c: ClientState, events: seq<Event>, server: nat -> WorldState,
                                             applied: nat -> InputMask, t0: nat, hash: WorldState -> nat)
    requires MovingServer(server, applied, t0) && Synced(c, server, t0, hash)
    requires TimelyRun(c, events, server, t0, hash)
    ensures Rollbacks(c, events, server, t0, hash) == 0
    decreases |events|
  {
    if events != [] {
      NextKeepsSynced(c, events[0], server, applied, t0, hash);
      NoFurtherRollback(Next(c, events[0], server, hash), events[1..], server, applied, t0, hash);
    }
  }
}
