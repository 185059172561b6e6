/**
  What the client measures as its round trip over runs of passes and snapshots. After a rollback it
  predicts ticks again and sends their inputs again, so a tick can be dispatched more than once.
 */
module ClientTiming {
  import opened Numbers
  import opened World
  import opened History
  import opened TickControl
  import opened Client

  /** The input of `tick` left the client. */
  datatype Sending = Sending(tick: nat, at: nat)

  /** A client, its clock, and every input it ever sent. */
  datatype Life = Life(client: ClientState, clock: Timing, log: seq<Sending>)

  datatype LifeEvent =
    | Pass(now: nat)
    | Heard(tick: nat, stateHash: nat, lastInput: nat, pos: FixedVec3, now: nat)

  function Sendings(tick: nat, n: nat, now: nat): seq<Sending> {
    if n == 0 then [] else Sendings(tick, n - 1, now) + [Sending(tick + n, now)]
  }

  function Born(tick: nat, pos: FixedVec3): (life: Life)
    ensures life.client.world.positions != []
  {
    Life(ClientState(WorldState([pos]), [], tick + LEAD, tick), Timing(0, map[]), [])
  }

  /** The steps are those of `GameClient.Steer` and `GameClient.TakeSnapshot`. */
  function Next(life: Life, e: LifeEvent, hash: WorldState -> nat): (after: Life)
    requires life.client.world.positions != []
    ensures after.client.world.positions != []
  {
    var c := life.client;
    match e
    case Pass(now) =>
      var n := StepsThisLoop(c.predicted, TargetTick(c.lastServer, life.clock.rttMs));
      Life(Predicted(c, n, hash), Pruned(Dispatched(life.clock, c.predicted, n, now), c.lastServer),
           life.log + Sendings(c.predicted, n, now))
    case Heard(tick, stateHash, lastInput, pos, now) =>
      life.(client := SnapshotTaken(c, tick, stateHash, pos, hash), clock := Measured(life.clock, lastInput, now))
  }

  function After(tick: nat, pos: FixedVec3, events: seq<LifeEvent>, hash: WorldState -> nat): (life: Life)
    ensures life.client.world.positions != []
  {
    if events == [] then Born(tick, pos)
    else Next(After(tick, pos, events[..|events| - 1], hash), events[|events| - 1], hash)
  }

  // ---------- the log ----------

  function LastSent(log: seq<Sending>, k: nat): Option<nat> {
    if log == [] then None
    else if log[|log| - 1].tick == k then Some(log[|log| - 1].at)
    else LastSent(log[..|log| - 1], k)
  }

  function FirstSent(log: seq<Sending>, k: nat): Option<nat> {
    if log == [] then None
    else
      var before := FirstSent(log[..|log| - 1], k);
      if before.None? && log[|log| - 1].tick == k then Some(log[|log| - 1].at) else before
  }

  function TimesSent(log: seq<Sending>, k: nat): nat {
    if log == [] then 0 else TimesSent(log[..|log| - 1], k) + if log[|log| - 1].tick == k then 1 else 0
  }

  lemma LoggedOneMore(log: seq<Sending>, s: Sending, k: nat)
    ensures LastSent(log + [s], k) == if s.tick == k then Some(s.at) else LastSent(log, k)
    ensures TimesSent(log + [s], k) == TimesSent(log, k) + if s.tick == k then 1 else 0
  {
    assert (log + [s])[..|log|] == log;
  }

  lemma {:induction false} SendingsLogged(log: seq<Sending>, tick: nat, n: nat, now: nat, k: nat)
    ensures var after := log + Sendings(tick, n, now);
            && LastSent(after, k) == (if tick < k <= tick + n then Some(now) else LastSent(log, k))
            && TimesSent(after, k) == TimesSent(log, k) + if tick < k <= tick + n then 1 else 0
  {
    hide LastSent, TimesSent;
    if n == 0 {
      assert log + [] == log;
    } else {
      SendingsLogged(log, tick, n - 1, now, k);
      var before := log + Sendings(tick, n - 1, now);
      assert log + Sendings(tick, n, now) == before + [Sending(tick + n, now)];
      LoggedOneMore(before, Sending(tick + n, now), k);
    }
  }

  lemma {:induction false} DispatchedExactly(t: Timing, tick: nat, n: nat, now: nat, k: nat)
    ensures var after := Dispatched(t, tick, n, now);
            && after.rttMs == t.rttMs
            && (k in after.dispatched <==> k in t.dispatched || tick < k <= tick + n)
            && (k in after.dispatched ==>
                  after.dispatched[k] == if tick < k <= tick + n then now else t.dispatched[k])
  {
    if n > 0 {
      DispatchedExactly(t, tick, n - 1, now, k);
    }
  }

  // ---------- what is measured ----------

  /** What waits for an answer has waited since its last sending. */
  ghost predicate WaitsSinceLast(life: Life) {
    forall k | k in life.clock.dispatched :: LastSent(life.log, k) == Some(life.clock.dispatched[k])
  }

  lemma NextKeepsWaits(life: Life, e: LifeEvent, hash: WorldState -> nat)
    requires life.client.world.positions != [] && WaitsSinceLast(life)
    ensures WaitsSinceLast(Next(life, e, hash))
  {
    hide SnapshotTaken, Predicted, LastSent;
    if e.Pass? {
      var c := life.client;
      var n := StepsThisLoop(c.predicted, TargetTick(c.lastServer, life.clock.rttMs));
      hide StepsThisLoop, TargetTick, Dispatched, Sendings;
      forall k | k in Next(life, e, hash).clock.dispatched
        ensures LastSent(Next(life, e, hash).log, k) == Some(Next(life, e, hash).clock.dispatched[k])
      {
        SendingsLogged(life.log, c.predicted, n, e.now, k);
        DispatchedExactly(life.clock, c.predicted, n, e.now, k);
      }
    }
  }

  lemma {:induction false} RunWaitsSinceLast(tick: nat, pos: FixedVec3, events: seq<LifeEvent>, hash: WorldState -> nat)
    ensures WaitsSinceLast(After(tick, pos, events, hash))
  {
    if events != [] {
      var before := events[..|events| - 1];
      RunWaitsSinceLast(tick, pos, before, hash);
      hide Next, WaitsSinceLast;
      NextKeepsWaits(After(tick, pos, before, hash), events[|events| - 1], hash);
    }
  }

  function Since(now: nat, at: nat): nat {
    if at <= now then now - at else 0
  }

  /**
    In every run: a snapshot that answers an input still waiting measures the time since that input
    was last sent, and the input waits no more; any other snapshot measures nothing.
   */
  lemma RoundTripIsMeasured(tick: nat, pos: FixedVec3, events: seq<LifeEvent>, e: LifeEvent, hash: WorldState -> nat)
    requires e.Heard?
    ensures var before := After(tick, pos, events, hash);
            var after := Next(before, e, hash);
            if e.lastInput in before.clock.dispatched then
              && LastSent(before.log, e.lastInput).Some?
              && after.clock.rttMs == Since(e.now, LastSent(before.log, e.lastInput).value)
              && e.lastInput !in after.clock.dispatched
            else after.clock == before.clock
  {
    RunWaitsSinceLast(tick, pos, events, hash);
    hide After, LastSent, SnapshotTaken;
  }

  // ---------- what waits ----------

  /** The tick of the last snapshot heard. */
  function LastHeard(tick: nat, events: seq<LifeEvent>): nat {
    if events == [] then tick
    else if events[|events| - 1].Heard? then events[|events| - 1].tick
    else LastHeard(tick, events[..|events| - 1])
  }

  lemma LastServerStays(c: ClientState, n: nat, tick: nat, stateHash: nat, pos: FixedVec3, hash: WorldState -> nat)
    requires c.world.positions != []
    ensures Predicted(c, n, hash).lastServer == c.lastServer
    ensures SnapshotTaken(c, tick, stateHash, pos, hash).lastServer == tick
  {
    hide Find;
  }

  lemma {:induction false} ServerTickIsLastHeard(tick: nat, pos: FixedVec3, events: seq<LifeEvent>,
                                                 hash: WorldState -> nat)
    ensures After(tick, pos, events, hash).client.lastServer == LastHeard(tick, events)
  {
    if events != [] {
      var before, e := events[..|events| - 1], events[|events| - 1];
      ServerTickIsLastHeard(tick, pos, before, hash);
      var life := After(tick, pos, before, hash);
      hide Predicted, SnapshotTaken, StepsThisLoop, TargetTick, Dispatched, Pruned, Sendings, Measured;
      match e
      case Pass(_) =>
        var n := StepsThisLoop(life.client.predicted, TargetTick(life.client.lastServer, life.clock.rttMs));
        LastServerStays(life.client, n, 0, 0, pos, hash);
      case Heard(t, stateHash, _, p, _) => LastServerStays(life.client, 0, t, stateHash, p, hash);
    }
  }

  /**
    An input that waits goes on waiting until it is answered, as long as no snapshot of a later tick is
    heard: what is forgotten when too many wait lies behind the server.
   */
  lemma {:induction false} WaitsUntilAnswered(tick: nat, pos: FixedVec3, events: seq<LifeEvent>, more: seq<LifeEvent>,
                                              k: nat, hash: WorldState -> nat)
    requires k in After(tick, pos, events, hash).clock.dispatched && LastHeard(tick, events) <= k
    requires forall i :: 0 <= i < |more| && more[i].Heard? ==> more[i].lastInput != k && more[i].tick <= k
    ensures k in After(tick, pos, events + more, hash).clock.dispatched && LastHeard(tick, events + more) <= k
    decreases |more|
  {
    hide Next;
    if more == [] {
      assert events + more == events;
    } else {
      var before, e := events + more[..|more| - 1], more[|more| - 1];
      WaitsUntilAnswered(tick, pos, events, more[..|more| - 1], k, hash);
      assert (events + more)[..|events + more| - 1] == before;
      ServerTickIsLastHeard(tick, pos, before, hash);
      StillWaits(After(tick, pos, before, hash), e, k, hash);
    }
  }

  lemma {:induction false} FewAreDispatched(t: Timing, tick: nat, n: nat, now: nat)
    ensures |Dispatched(t, tick, n, now).dispatched| <= |t.dispatched| + n
  {
    if n > 0 {
      FewAreDispatched(t, tick, n - 1, now);
      OneMoreWaits(Dispatched(t, tick, n - 1, now).dispatched, tick + n, now);
    }
  }

  lemma OneMoreWaits(waiting: map<nat, nat>, k: nat, now: nat)
    ensures |waiting[k := now]| <= |waiting| + 1
  {
    var after := waiting[k := now];
    assert after.Keys == waiting.Keys + {k};
    assert |after| == |after.Keys| && |waiting| == |waiting.Keys|;
  }

  /**
    More than 128 inputs wait after a pass only if none of them lies behind the server, and a pass
    forgets none unless they and the inputs it sends are more than 128.
   */
  lemma PassBoundsWaiting(life: Life, e: LifeEvent, hash: WorldState -> nat)
    requires life.client.world.positions != [] && e.Pass?
    ensures var waiting, was := Next(life, e, hash).clock.dispatched, life.clock.dispatched;
            && (|waiting| > 128 ==> forall k | k in waiting :: k >= life.client.lastServer)
            && (|was| <= 126 ==> forall k | k in was :: k in waiting)
  {
    var c := life.client;
    var n := StepsThisLoop(c.predicted, TargetTick(c.lastServer, life.clock.rttMs));
    hide Predicted, Sendings, Dispatched, TargetTick;
    FewAreDispatched(life.clock, c.predicted, n, e.now);
    forall k | k in life.clock.dispatched
      ensures k in Dispatched(life.clock, c.predicted, n, e.now).dispatched
    {
      DispatchedExactly(life.clock, c.predicted, n, e.now, k);
    }
  }

  /** Whatever a pass sends waits too, since it lies ahead of the server or is kept with the rest. */
  lemma StillWaits(life: Life, e: LifeEvent, k: nat, hash: WorldState -> nat)
    requires life.client.world.positions != [] && life.client.lastServer <= k
    ensures e.Heard? && e.lastInput != k && k in life.clock.dispatched ==> k in Next(life, e, hash).clock.dispatched
    ensures var p := life.client.predicted;
            var n := StepsThisLoop(p, TargetTick(life.client.lastServer, life.clock.rttMs));
            e.Pass? && (k in life.clock.dispatched || p < k <= p + n) ==> k in Next(life, e, hash).clock.dispatched
  {
    var c := life.client;
    var n := StepsThisLoop(c.predicted, TargetTick(c.lastServer, life.clock.rttMs));
    DispatchedExactly(life.clock, c.predicted, n, e.now, k);
    hide Predicted, SnapshotTaken, Sendings, Dispatched, StepsThisLoop, TargetTick;
  }

  // ---------- the first sending ----------

  /** Time does not run backwards, and no two passes are at the same time. */
  predicate Timed(events: seq<LifeEvent>) {
    events == []
    || (&& Timed(events[..|events| - 1])
        && forall i :: 0 <= i < |events| - 1 ==>
             if events[i].Pass? && events[|events| - 1].Pass? then events[i].now < events[|events| - 1].now
             else events[i].now <= events[|events| - 1].now)
  }

  /** The log is in the order of time, and sendings of one tick are at different times. */
  ghost predicate Ordered(log: seq<Sending>) {
    forall i, j :: 0 <= i < j < |log| ==>
      log[i].at <= log[j].at && (log[i].tick == log[j].tick ==> log[i].at < log[j].at)
  }

  lemma {:induction false} SendingsAre(tick: nat, n: nat, now: nat)
    ensures |Sendings(tick, n, now)| == n
    ensures forall i :: 0 <= i < n ==> Sendings(tick, n, now)[i] == Sending(tick + 1 + i, now)
  {
    if n > 0 {
      SendingsAre(tick, n - 1, now);
    }
  }

  lemma OrderedConcat(log: seq<Sending>, tick: nat, n: nat, now: nat)
    requires Ordered(log) && forall i :: 0 <= i < |log| ==> log[i].at < now
    ensures Ordered(log + Sendings(tick, n, now))
  {
    SendingsAre(tick, n, now);
    hide Sendings;
  }

  /** Everything in the log was sent before `horizon` if every pass was before it. */
  lemma {:induction false} RunIsOrdered(tick: nat, pos: FixedVec3, events: seq<LifeEvent>, hash: WorldState -> nat,
                                        horizon: nat)
    requires Timed(events) && forall i :: 0 <= i < |events| ==> events[i].Pass? ==> events[i].now < horizon
    ensures var log := After(tick, pos, events, hash).log;
            Ordered(log) && forall i :: 0 <= i < |log| ==> log[i].at < horizon
    decreases |events|
  {
    hide Sendings, Predicted, SnapshotTaken, Dispatched, Pruned;
    if events != [] {
      var before, e := events[..|events| - 1], events[|events| - 1];
      var life := After(tick, pos, before, hash);
      RunIsOrdered(tick, pos, before, hash, if e.Pass? then e.now else horizon);
      if e.Pass? {
        var c := life.client;
        var n := StepsThisLoop(c.predicted, TargetTick(c.lastServer, life.clock.rttMs));
        hide StepsThisLoop, TargetTick;
        OrderedConcat(life.log, c.predicted, n, e.now);
        SendingsAre(c.predicted, n, e.now);
      }
      hide Ordered;
    }
  }

  lemma {:induction false} SentIsLogged(log: seq<Sending>, k: nat)
    ensures FirstSent(log, k).Some? ==> Sending(k, FirstSent(log, k).value) in log
    ensures LastSent(log, k).Some? ==> Sending(k, LastSent(log, k).value) in log
    ensures FirstSent(log, k).None? <==> TimesSent(log, k) == 0
    ensures LastSent(log, k).None? <==> TimesSent(log, k) == 0
  {
    if log != [] {
      SentIsLogged(log[..|log| - 1], k);
      assert log == log[..|log| - 1] + [log[|log| - 1]];
    }
  }

  /** First and last sending are one exactly when there was only one. */
  lemma {:induction false} FirstIsLastExactly(log: seq<Sending>, k: nat)
    requires Ordered(log) && TimesSent(log, k) > 0
    ensures FirstSent(log, k).Some? && LastSent(log, k).Some? && FirstSent(log, k).value <= LastSent(log, k).value
    ensures FirstSent(log, k) == LastSent(log, k) <==> TimesSent(log, k) == 1
  {
    var before, last := log[..|log| - 1], log[|log| - 1];
    SentIsLogged(log, k);
    SentIsLogged(before, k);
    if last.tick != k {
      FirstIsLastExactly(before, k);
    } else if TimesSent(before, k) > 0 {
      var first := FirstSent(before, k).value;
      var i :| 0 <= i < |before| && before[i] == Sending(k, first);
      assert log[i].at < last.at;
    }
  }

  lemma TimedBefore(events: seq<LifeEvent>, e: LifeEvent)
    requires Timed(events + [e])
    ensures Timed(events) && forall i :: 0 <= i < |events| ==> events[i].now <= e.now
  {
    var all := events + [e];
    assert all[..|all| - 1] == events;
    assert forall i :: 0 <= i < |events| ==> events[i] == all[i];
  }

  /**
    The round trip measured is the time since the input was first sent if and only if it was sent
    once; a tick sent again after a rollback gives a shorter one.
   */
  lemma MeasuresFirstSendingExactly(tick: nat, pos: FixedVec3, events: seq<LifeEvent>, e: LifeEvent,
                                    hash: WorldState -> nat)
    requires e.Heard? && Timed(events + [e])
    requires e.lastInput in After(tick, pos, events, hash).clock.dispatched
    ensures var life := After(tick, pos, events, hash);
            var first := FirstSent(life.log, e.lastInput);
            && first.Some? && first.value <= e.now
            && Next(life, e, hash).clock.rttMs <= e.now - first.value
            && (Next(life, e, hash).clock.rttMs == e.now - first.value <==> TimesSent(life.log, e.lastInput) == 1)
  {
    var life := After(tick, pos, events, hash);
    TimedBefore(events, e);
    hide After, Next, Timed, Ordered, FirstSent, LastSent, TimesSent;
    RoundTripIsMeasured(tick, pos, events, e, hash);
    RunIsOrdered(tick, pos, events, hash, e.now + 1);
    SentIsLogged(life.log, e.lastInput);
    FirstIsLastExactly(life.log, e.lastInput);
  }

  /** Measured once per sending: until its input is sent again, no later answer measures anything. */
  lemma {:induction false} AnsweredUntilSentAgain(tick: nat, pos: FixedVec3, events: seq<LifeEvent>,
                                                  more: seq<LifeEvent>, k: nat, hash: WorldState -> nat)
    requires k !in After(tick, pos, events, hash).clock.dispatched
    ensures TimesSent(After(tick, pos, events + more, hash).log, k) >=
            TimesSent(After(tick, pos, events, hash).log, k)
    ensures TimesSent(After(tick, pos, events + more, hash).log, k) ==
            TimesSent(After(tick, pos, events, hash).log, k) ==>
              k !in After(tick, pos, events + more, hash).clock.dispatched
    decreases |more|
  {
    hide Next, TimesSent;
    if more == [] {
      assert events + more == events;
    } else {
      var before, e := events + more[..|more| - 1], more[|more| - 1];
      AnsweredUntilSentAgain(tick, pos, events, more[..|more| - 1], k, hash);
      assert (events + more)[..|events + more| - 1] == before;
      StaysAnswered(After(tick, pos, before, hash), e, k, hash);
    }
  }

  lemma StaysAnswered(life: Life, e: LifeEvent, k: nat, hash: WorldState -> nat)
    requires life.client.world.positions != []
    ensures var after := Next(life, e, hash);
            && TimesSent(after.log, k) >= TimesSent(life.log, k)
            && (k !in life.clock.dispatched && TimesSent(after.log, k) == TimesSent(life.log, k) ==>
                  k !in after.clock.dispatched)
  {
    if e.Pass? {
      var c := life.client;
      var n := StepsThisLoop(c.predicted, TargetTick(c.lastServer, life.clock.rttMs));
      SendingsLogged(life.log, c.predicted, n, e.now, k);
      DispatchedExactly(life.clock, c.predicted, n, e.now, k);
    }
    hide Predicted, SnapshotTaken, Sendings, Dispatched, TimesSent, StepsThisLoop, TargetTick;
  }

  // ---------- a witness ----------

  lemma {:induction false} PredictedElsewhere(c: ClientState, n: nat, t: nat, hash: WorldState -> nat)
    requires c.world.positions != [] && t <= c.predicted && c.predicted + n < t + CAPACITY
    ensures Find(Predicted(c, n, hash).log, t) == Find(c.log, t)
  {
    hide Find, Advanced;
    if n > 0 {
      PredictedElsewhere(c, n - 1, t, hash);
      AdvanceElsewhere(Predicted(c, n - 1, hash), FORWARD, t, hash);
    }
  }

  /** What the witness follows: the ticks, the clock, the log, and what is recorded for tick 4. */
  predicate Looks(life: Life, predicted: nat, lastServer: nat, clock: Timing, log: seq<Sending>) {
    && life.client.predicted == predicted && life.client.lastServer == lastServer
    && life.clock == clock && life.log == log
  }

  /** A pass of `n` steps with few inputs waiting. */
  lemma PassLooks(life: Life, now: nat, n: nat, clock: Timing, hash: WorldState -> nat)
    requires life.client.world.positions != []
    requires n == StepsThisLoop(life.client.predicted, TargetTick(life.client.lastServer, life.clock.rttMs))
    requires clock == Dispatched(life.clock, life.client.predicted, n, now) && |clock.dispatched| <= MAX_DISPATCHED
    requires 4 <= life.client.predicted && life.client.predicted + n < 100
    ensures var after := Next(life, Pass(now), hash);
            && Looks(after, life.client.predicted + n, life.client.lastServer, clock,
                     life.log + Sendings(life.client.predicted, n, now))
            && Find(after.client.log, 4) == Find(life.client.log, 4)
  {
    PredictedElsewhere(life.client, n, 4, hash);
    hide Predicted, Find, Dispatched, Sendings, StepsThisLoop, TargetTick;
  }

  lemma OneSent(t: Timing, tick: nat, now: nat)
    ensures Dispatched(t, tick, 1, now) == t.(dispatched := t.dispatched[tick + 1 := now])
    ensures Sendings(tick, 1, now) == [Sending(tick + 1, now)]
  {
    assert Dispatched(t, tick, 0, now) == t;
    assert Sendings(tick, 0, now) == [];
  }

  /** The first tick predicted is recorded, and nothing else is. */
  lemma FirstIsRecorded(c: ClientState, hash: WorldState -> nat)
    requires c.world.positions != [] && c.log == [] && c.predicted == 3
    ensures Find(Predicted(c, 1, hash).log, 4).Some? && Find(Predicted(c, 1, hash).log, 1).None?
  {
    var after := Advanced(c, FORWARD, hash);
    assert Predicted(c, 0, hash) == c && Predicted(c, 1, hash) == after;
    hide Advanced, Predicted;
    AdvanceIsRecorded(c, FORWARD, hash);
    FirstIsAlone(c, hash);
  }

  lemma FirstIsAlone(c: ClientState, hash: WorldState -> nat)
    requires c.world.positions != [] && c.log == [] && c.predicted == 3
    ensures Find(Advanced(c, FORWARD, hash).log, 1).None?
  {
    hide StepPhysics;
    var record := FrameRecord(4, StepPhysics(c.world, FORWARD), hash(StepPhysics(c.world, FORWARD)), FORWARD);
    assert Advanced(c, FORWARD, hash).log == [] + [record];
    LookupAfterInsert([], CAPACITY, record, 1);
  }

  lemma FirstPass(pos: FixedVec3, hash: WorldState -> nat)
    ensures var life := Next(Born(0, pos), Pass(0), hash);
            && Looks(life, 4, 0, Timing(0, map[4 := 0]), [Sending(4, 0)])
            && Find(life.client.log, 4).Some? && Find(life.client.log, 1).None?
  {
    var life := Born(0, pos);
    OneSent(life.clock, 3, 0);
    FirstIsRecorded(life.client, hash);
    hide Predicted, Dispatched, Sendings, Find;
    assert [] + [Sending(4, 0)] == [Sending(4, 0)];
  }

  lemma TwoSent(t: Timing, tick: nat, now: nat)
    ensures Dispatched(t, tick, 2, now) == t.(dispatched := t.dispatched[tick + 1 := now][tick + 2 := now])
    ensures Sendings(tick, 2, now) == [Sending(tick + 1, now), Sending(tick + 2, now)]
  {
    OneSent(t, tick, now);
  }

  lemma TwoMore(life: Life, now: nat, clock: Timing, hash: WorldState -> nat)
    requires life.client.world.positions != [] && 4 <= life.client.predicted < 90
    requires life.client.predicted < TargetTick(life.client.lastServer, life.clock.rttMs)
    requires var p := life.client.predicted;
             clock == life.clock.(dispatched := life.clock.dispatched[p + 1 := now][p + 2 := now])
    requires |clock.dispatched| <= MAX_DISPATCHED
    ensures var p, after := life.client.predicted, Next(life, Pass(now), hash);
            && Looks(after, p + 2, life.client.lastServer, clock, life.log + [Sending(p + 1, now), Sending(p + 2, now)])
            && Find(after.client.log, 4) == Find(life.client.log, 4)
  {
    TwoSent(life.clock, life.client.predicted, now);
    hide Find, Sendings, Dispatched, TargetTick;
    PassLooks(life, now, 2, clock, hash);
  }

  lemma OneMoreEvent(pos: FixedVec3, events: seq<LifeEvent>, e: LifeEvent, hash: WorldState -> nat)
    requires Timed(events) && forall i :: 0 <= i < |events| ==> events[i].now < e.now
    ensures Timed(events + [e])
    ensures After(0, pos, events + [e], hash) == Next(After(0, pos, events, hash), e, hash)
  {
    hide Next;
    assert (events + [e])[..|events|] == events;
  }

  /** A snapshot of a tick that is not recorded only measures. */
  lemma HeardAnswer(life: Life, hash: WorldState -> nat, pos: FixedVec3)
    requires Looks(life, 4, 0, Timing(0, map[4 := 0]), [Sending(4, 0)]) && Find(life.client.log, 1).None?
    requires life.client.world.positions != []
    ensures var after := Next(life, Heard(1, 0, 4, pos, 100), hash);
            Looks(after, 4, 1, Timing(100, map[]), [Sending(4, 0)]) && after.client.log == life.client.log
  {
    hide Find, Replayed;
    assert map[4 := 0] - {4} == map[];
  }

  /** A snapshot that disagrees with what is recorded for tick 4 goes back to it. */
  lemma HeardMismatch(life: Life, hash: WorldState -> nat, pos: FixedVec3, stateHash: nat)
    requires Find(life.client.log, 4).Some? && Find(life.client.log, 4).value.stateHash != stateHash
    requires 4 !in life.clock.dispatched && life.client.world.positions != []
    ensures Looks(Next(life, Heard(4, stateHash, 4, pos, 120), hash), 7, 4, life.clock, life.log)
  {
    hide Find, Replayed;
  }

  /** Tick 4 is sent at 0 and answered at 100. */
  lemma UpToAnswer(pos: FixedVec3, hash: WorldState -> nat) returns (events: seq<LifeEvent>)
    ensures Timed(events) && forall i :: 0 <= i < |events| ==> events[i].now <= 100
    ensures var life := After(0, pos, events, hash);
            Looks(life, 4, 1, Timing(100, map[]), [Sending(4, 0)]) && Find(life.client.log, 4).Some?
  {
    FirstPass(pos, hash);
    var answer := Heard(1, 0, 4, pos, 100);
    hide Next, Find, After, Timed;
    BornAfter(pos, hash);
    OneMoreEvent(pos, [], Pass(0), hash);
    events := [] + [Pass(0)];
    HeardAnswer(After(0, pos, events, hash), hash, pos);
    OneMoreEvent(pos, events, answer, hash);
    events := events + [answer];
  }

  /** Up to the rollback: ticks 5 and 6 are sent at 101, ticks 7 and 8 at 117. */
  lemma UpToRollback(pos: FixedVec3, hash: WorldState -> nat) returns (events: seq<LifeEvent>)
    ensures Timed(events) && forall i :: 0 <= i < |events| ==> events[i].now <= 117
    ensures var life := After(0, pos, events, hash);
            && Looks(life, 8, 1, Timing(100, map[5 := 101, 6 := 101, 7 := 117, 8 := 117]),
                     [Sending(4, 0), Sending(5, 101), Sending(6, 101), Sending(7, 117), Sending(8, 117)])
            && Find(life.client.log, 4).Some?
  {
    hide Next, Find, After, Timed;
    events := UpToAnswer(pos, hash);
    TwoMore(After(0, pos, events, hash), 101, Timing(100, map[5 := 101, 6 := 101]), hash);
    OneMoreEvent(pos, events, Pass(101), hash);
    events := events + [Pass(101)];
    TwoMore(After(0, pos, events, hash), 117, Timing(100, map[5 := 101, 6 := 101, 7 := 117, 8 := 117]), hash);
    OneMoreEvent(pos, events, Pass(117), hash);
    events := events + [Pass(117)];
  }

  lemma BornAfter(pos: FixedVec3, hash: WorldState -> nat)
    ensures After(0, pos, [], hash) == Born(0, pos) && Timed([])
  {}

  /** A snapshot of tick 4 with another hash takes the client back to tick 7 ... */
  lemma UpToMismatch(pos: FixedVec3, hash: WorldState -> nat) returns (events: seq<LifeEvent>)
    ensures Timed(events) && forall i :: 0 <= i < |events| ==> events[i].now <= 120
    ensures var life := After(0, pos, events, hash);
            && Looks(life, 7, 4, Timing(100, map[5 := 101, 6 := 101, 7 := 117, 8 := 117]),
                     [Sending(4, 0), Sending(5, 101), Sending(6, 101), Sending(7, 117), Sending(8, 117)])
  {
    hide Find, After, Next, Timed;
    events := UpToRollback(pos, hash);
    var life := After(0, pos, events, hash);
    var mismatch := Heard(4, Find(life.client.log, 4).value.stateHash + 1, 4, pos, 120);
    HeardMismatch(life, hash, pos, mismatch.stateHash);
    OneMoreEvent(pos, events, mismatch, hash);
    events := events + [mismatch];
  }

  /** ... and after it tick 8 is sent again, at 133. */
  lemma UpToResending(pos: FixedVec3, hash: WorldState -> nat) returns (events: seq<LifeEvent>)
    ensures Timed(events) && forall i :: 0 <= i < |events| ==> events[i].now <= 133
    ensures var life := After(0, pos, events, hash);
            Looks(life, 9, 4, Timing(100, map[5 := 101, 6 := 101, 7 := 117, 8 := 133, 9 := 133]),
                  [Sending(4, 0), Sending(5, 101), Sending(6, 101), Sending(7, 117), Sending(8, 117)]
                  + [Sending(8, 133), Sending(9, 133)])
  {
    hide Find, After, Next, Timed;
    events := UpToMismatch(pos, hash);
    var clock := Timing(100, map[5 := 101, 6 := 101, 7 := 117, 8 := 133, 9 := 133]);
    assert clock.dispatched == map[5 := 101, 6 := 101, 7 := 117, 8 := 117][8 := 133][9 := 133];
    TwoMore(After(0, pos, events, hash), 133, clock, hash);
    OneMoreEvent(pos, events, Pass(133), hash);
    events := events + [Pass(133)];
  }

  /** The witness: the answer to tick 8 comes at 150 and measures 17, though the tick was first sent 33 before. */
  lemma ResentTickMeasuresLess(pos: FixedVec3, hash: WorldState -> nat) returns (events: seq<LifeEvent>, e: LifeEvent)
    ensures e.Heard? && Timed(events + [e])
    ensures var life := After(0, pos, events, hash);
            && e.lastInput in life.clock.dispatched && Next(life, e, hash).clock.rttMs == 17
            && FirstSent(life.log, e.lastInput) == Some(e.now - 33)
  {
    events := UpToResending(pos, hash);
    e := Heard(6, 0, 8, pos, 150);
    hide After, Next, Timed, FirstSent;
    OneMoreEvent(pos, events, e, hash);
    EightWasSentAt117();
    AnswerMeasures(After(0, pos, events, hash), e, hash);
  }

  lemma AnswerMeasures(life: Life, e: LifeEvent, hash: WorldState -> nat)
    requires e.Heard? && life.client.world.positions != [] && e.lastInput in life.clock.dispatched
    ensures Next(life, e, hash).clock.rttMs == Since(e.now, life.clock.dispatched[e.lastInput])
  {}

  lemma {:induction false} FirstSentStays(log: seq<Sending>, more: seq<Sending>, k: nat)
    requires FirstSent(log, k).Some?
    ensures FirstSent(log + more, k) == FirstSent(log, k)
  {
    if more == [] {
      assert log + more == log;
    } else {
      FirstSentStays(log, more[..|more| - 1], k);
      assert (log + more)[..|log + more| - 1] == log + more[..|more| - 1];
    }
  }

  lemma {:induction false} NeverSent(log: seq<Sending>, k: nat)
    requires forall i :: 0 <= i < |log| ==> log[i].tick != k
    ensures FirstSent(log, k).None?
  {
    if log != [] {
      NeverSent(log[..|log| - 1], k);
    }
  }

  lemma EightWasSentAt117()
    ensures FirstSent([Sending(4, 0), Sending(5, 101), Sending(6, 101), Sending(7, 117), Sending(8, 117)]
                      + [Sending(8, 133), Sending(9, 133)], 8) == Some(117)
  {
    var before := [Sending(4, 0), Sending(5, 101), Sending(6, 101), Sending(7, 117)];
    NeverSent(before, 8);
    var log := before + [Sending(8, 117)];
    assert log[..4] == before;
    assert log == [Sending(4, 0), Sending(5, 101), Sending(6, 101), Sending(7, 117), Sending(8, 117)];
    FirstSentStays(log, [Sending(8, 133), Sending(9, 133)], 8);
  }
}
