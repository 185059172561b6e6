/**
  The two controllers that keep a client's predicted tick near its target: the stepping controller
  of the client and the proportional one of the swarm client. In both, the server advances one tick
  per loop.
 */
module TickControl {
  import opened Numbers

  // ---------- the client ----------

  /** Round trip in milliseconds to ticks one way, both divisions rounding down. */
  function PingTicks(rttMs: nat): nat {
    (rttMs / 2) / 16
  }

  function TargetTick(lastServerTick: nat, rttMs: nat): nat {
    lastServerTick + PingTicks(rttMs) + 3
  }

  function StepsThisLoop(predicted: nat, target: nat): nat {
    if predicted < target then 2 else if predicted > target + 2 then 0 else 1
  }

  /** Predicted minus target after `n` loops of a steady server. */
  function ErrorAfter(predicted: nat, target: nat, n: nat): int {
    PredictedAfter(predicted, target, n) - (target + n)
  }

  function PredictedAfter(predicted: nat, target: nat, n: nat): nat {
    if n == 0 then predicted
    else
      var p := PredictedAfter(predicted, target, n - 1);
      p + StepsThisLoop(p, target + n - 1)
  }

  function LoopsToBand(e: int): nat {
    if e < 0 then -e else if e > 2 then e - 2 else 0
  }

  function ErrorTrajectory(e: int, n: nat): int {
    if e < 0 then (if n <= -e then e + n else 0)
    else if e > 2 then (if n <= e - 2 then e - n else 2)
    else e
  }

  /** The whole trajectory: one tick per loop towards the band [0, 2], then still. */
  lemma {:induction false} ClientTrajectory(predicted: nat, target: nat, n: nat)
    ensures ErrorAfter(predicted, target, n) == ErrorTrajectory(predicted - target, n)
  {
    if n > 0 {
      ClientTrajectory(predicted, target, n - 1);
    }
  }

  /** The band is reached after exactly `max(-e, e - 2, 0)` loops and never left. */
  lemma ClientReachesBandExactly(predicted: nat, target: nat, n: nat)
    ensures 0 <= ErrorAfter(predicted, target, n) <= 2 <==> n >= LoopsToBand(predicted - target)
  {
    ClientTrajectory(predicted, target, n);
  }

  /** The target leads the server by three ticks and half the round trip in whole ticks of 16 ms. */
  lemma TargetIsOneWayAhead(lastServer: nat, rttMs: nat)
    ensures var trip: int := TargetTick(lastServer, rttMs) - lastServer - 3;
            0 <= 32 * trip <= rttMs < 32 * trip + 32
  {}

  /** The predicted tick after `n` loops in which the server's tick advances by one each and the round trip stays. */
  function Steered(predicted: nat, server: nat, rttMs: nat, n: nat): nat {
    if n == 0 then predicted
    else
      var p := Steered(predicted, server, rttMs, n - 1);
      p + StepsThisLoop(p, TargetTick(server + n - 1, rttMs))
  }

  lemma {:induction false} SteeredIsPredicted(predicted: nat, server: nat, rttMs: nat, n: nat)
    ensures Steered(predicted, server, rttMs, n) == PredictedAfter(predicted, TargetTick(server, rttMs), n)
  {
    if n > 0 {
      SteeredIsPredicted(predicted, server, rttMs, n - 1);
    }
  }

  /**
    Steered by a steady server, the client leads it by the one-way trip in whole ticks of 16 ms plus
    3 to 5 ticks, exactly from the loop on in which the band is reached.
   */
  lemma LeadSettlesExactly(predicted: nat, server: nat, rttMs: nat, n: nat)
    ensures var lead: int := Steered(predicted, server, rttMs, n) - (server + n);
            rttMs / 32 + 3 <= lead <= rttMs / 32 + 5 <==>
            n >= LoopsToBand(predicted - server - 3 - rttMs / 32)
  {
    SteeredIsPredicted(predicted, server, rttMs, n);
    TargetIsOneWayAhead(server, rttMs);
    assert TargetTick(server, rttMs) == server + 3 + rttMs / 32;
    ClientReachesBandExactly(predicted, TargetTick(server, rttMs), n);
  }

  // ---------- the swarm client ----------

  const GAIN := 0.05

  /** Rounding half away from zero. */
  function Round(x: real): int {
    if x >= 0.0 then (x + 0.5).Floor else -((-x + 0.5).Floor)
  }

  /** The cast to an unsigned integer stops at 0. */
  function ToUnsigned(i: int): nat {
    if i < 0 then 0 else i
  }

  function SwarmStep(error: int): nat {
    ToUnsigned(Round(1.0 + error as real * GAIN))
  }

  /** Server tick minus predicted tick after `n` loops. */
  function SwarmError(e: int, n: nat): int {
    if n == 0 then e
    else
      var before := SwarmError(e, n - 1);
      before + 1 - SwarmStep(before)
  }

  /** The step in integers: nothing below -10, then one tick more for every twenty ticks of error. */
  lemma SwarmStepExactly(error: int)
    ensures SwarmStep(error) == if error <= -11 then 0 else (error + 30) / 20
  {
    var x := 1.0 + error as real * GAIN;
    if x >= 0.0 {
      FloorOfTwentieths(error + 30);
      assert x + 0.5 == (error + 30) as real / 20.0;
    }
  }

  lemma FloorOfTwentieths(i: int)
    ensures (i as real / 20.0).Floor == i / 20
  {
    var q, r := i / 20, i % 20;
    assert i as real / 20.0 == q as real + r as real / 20.0;
  }

  /** Every error in [-10, 9] is a fixed point, and there are no others. */
  lemma SwarmFixedPoints(e: int)
    ensures SwarmError(e, 1) == e <==> -10 <= e <= 9
  {
    SwarmStepExactly(e);
    assert SwarmError(e, 0) == e;
  }

  /** One loop moves the error towards [-10, 9] and never across it. */
  lemma SwarmMovesInward(e: int)
    ensures e > 9 ==> 9 <= SwarmError(e, 1) < e
    ensures e < -10 ==> SwarmError(e, 1) == e + 1
  {
    SwarmStepExactly(e);
    assert SwarmError(e, 0) == e;
  }

  /** From below the error climbs by one per loop and stops at -10. */
  lemma {:induction false} SwarmFromBelow(e: int, n: nat)
    requires e <= -10
    ensures SwarmError(e, n) == if n <= -10 - e then e + n else -10
  {
    if n > 0 {
      SwarmFromBelow(e, n - 1);
      SwarmMovesInward(SwarmError(e, n - 1));
      SwarmFixedPoints(SwarmError(e, n - 1));
    }
  }

  /** From above the excess over 9 shrinks at least by 19/20 per loop and by at least one tick. */
  lemma {:induction false} SwarmFromAbove(e: int, n: nat)
    requires e >= 9
    ensures 9 <= SwarmError(e, n)
    ensures (SwarmError(e, n) - 9) as real <= Scaled((e - 9) as real, 0.95, n)
    ensures SwarmError(e, n) == 9 || SwarmError(e, n) <= e - n
  {
    if n > 0 {
      SwarmFromAbove(e, n - 1);
      var before := SwarmError(e, n - 1);
      SwarmStepExactly(before);
      assert (before + 30) / 20 - 1 >= (before - 9) / 20;
      assert 20 * ((before + 30) / 20 - 1) >= before - 9;
    }
  }

  /** Every start converges, and inside the band nothing changes any more. */
  lemma SwarmConverges(e: int, n: nat)
    requires n >= (if e < -10 then -10 - e else if e > 9 then e - 9 else 0)
    ensures SwarmError(e, n) == if e < -10 then -10 else if e > 9 then 9 else e
  {
    if e < -10 {
      SwarmFromBelow(e, n);
    } else if e > 9 {
      SwarmFromAbove(e, n);
    } else {
      SwarmStaysPut(e, n);
    }
  }

  lemma {:induction false} SwarmStaysPut(e: int, n: nat)
    requires -10 <= e <= 9
    ensures SwarmError(e, n) == e
  {
    if n > 0 {
      SwarmStaysPut(e, n - 1);
      SwarmStepExactly(e);
    }
  }

  /** The swarm client, reduced to what its controller reads and writes. */
  class SwarmClient {
    var predictedTick: nat
    var lastServerTick: nat

    method Tick(gain: real)
      modifies this`predictedTick
      ensures var error: int := lastServerTick - old(predictedTick);
              predictedTick == old(predictedTick) + ToUnsigned(Round(1.0 + error as real * gain))
      ensures gain == GAIN ==>
                lastServerTick + 1 - predictedTick == SwarmError(lastServerTick - old(predictedTick), 1)
    {
      var error: int := lastServerTick - predictedTick;
      var tickAcceleration := error as real * gain;
      var step := ToUnsigned(Round(1.0 + tickAcceleration));
      predictedTick := predictedTick + step;
      assert SwarmError(error, 0) == error;
    }
  }
}
