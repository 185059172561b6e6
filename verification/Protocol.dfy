/**
  The reliability layer: wrapping sequence numbers, the receive window, selective
  acknowledgements, the round-trip estimator and retransmission with backoff.
 */
module Protocol {
  import opened Numbers
  import opened Bits

  const HALF_RANGE: u16 := 0x8000
  const INITIAL_RTO_MS := 100.0
  const MIN_RTO_MS := 30.0
  const MAX_RTO_MS := 500.0
  const MAX_BACKOFF_MS := 2000.0

  datatype Header = Header(sequence: u16, ack: u16, ackBits: bv32)

  datatype Unacked = Unacked(sequence: u16, timeSent: nat, data: Bytes, retries: nat)

  /** The receive window: bit `d` stands for the sequence `highest - d`. */
  datatype Window = Window(highest: u16, bits: bv32)

  datatype Estimator = Estimator(smoothed: real, variance: real, rto: real, first: bool)

  /** The whole state of the layer as a value. */
  datatype Reliability = Reliability(
    nextOutgoing: u16,
    window: Window,
    rtt: Estimator,
    unacked: seq<Unacked>,
    lastReceived: nat,
    pendingAck: bool,
    retransmits: nat)

  const FRESH := Reliability(1, Window(0, 0), Estimator(0.0, 0.0, INITIAL_RTO_MS, true), [], 0, false, 0)

  /** Every reachable timeout lies between the floor of the estimator and the cap of the backoff. */
  predicate TimeoutOk(r: Reliability) {
    MIN_RTO_MS <= r.rtt.rto <= MAX_BACKOFF_MS
  }

  function WrappingSub(s1: u16, s2: u16): u16 {
    Wrap16(s1 - s2)
  }

  /** The comparison of section 3.2 of RFC 1982, written as the source writes it. */
  predicate MoreRecent(s1: u16, s2: u16) {
    (s1 > s2 && s1 - s2 < HALF_RANGE) || (s2 > s1 && WrappingSub(s2, s1) > HALF_RANGE)
  }

  /** Time between two instants, 0 when they come out of order. */
  function Elapsed(now: nat, earlier: nat): real {
    if earlier <= now then (now - earlier) as real else 0.0
  }

  // ---------- acknowledgements ----------

  /** Does the sender take header `h` to acknowledge `s`? It reads `ack - d` from bit `d - 1`. */
  predicate Acked(h: Header, s: u16) {
    || s == h.ack
    || (MoreRecent(h.ack, s)
        && var diff := WrappingSub(h.ack, s); 0 < diff <= 32 && Bit32(h.ackBits, diff - 1))
  }

  /** The packets that stay outstanding, in order. */
  function Remaining(pkts: seq<Unacked>, h: Header): seq<Unacked> {
    if pkts == [] then []
    else
      var rest := Remaining(pkts[..|pkts| - 1], h);
      var pkt := pkts[|pkts| - 1];
      if Acked(h, pkt.sequence) then rest else rest + [pkt]
  }

  /** The round-trip samples of the packets `h` clears: only packets never resent give one. */
  function Samples(pkts: seq<Unacked>, h: Header, now: nat): seq<real> {
    if pkts == [] then []
    else
      var rest := Samples(pkts[..|pkts| - 1], h, now);
      var pkt := pkts[|pkts| - 1];
      if Acked(h, pkt.sequence) && pkt.retries == 0 then rest + [Elapsed(now, pkt.timeSent)] else rest
  }

  // ---------- round-trip estimator ----------

  function Clamp(x: real, lo: real, hi: real): real {
    if x < lo then lo else if x > hi then hi else x
  }

  /** One step of section 2 of RFC 6298 with gains 1/8 and 1/4. */
  function Sampled(e: Estimator, sample: real): Estimator {
    var smoothed := if e.first then sample else e.smoothed + 0.125 * (sample - e.smoothed);
    var variance :=
      if e.first then sample * 0.5 else e.variance + 0.25 * (Abs(sample - e.smoothed) - e.variance);
    Estimator(smoothed, variance, Clamp(smoothed + 4.0 * variance, MIN_RTO_MS, MAX_RTO_MS), false)
  }

  function SampledAll(e: Estimator, samples: seq<real>): Estimator {
    if samples == [] then e
    else Sampled(SampledAll(e, samples[..|samples| - 1]), samples[|samples| - 1])
  }

  // ---------- receive window ----------

  /** Is the arrival of `s` new to the window? The shift by 32 is the masked one. */
  predicate IsNew(w: Window, s: u16) {
    MoreRecent(s, w.highest)
    || (var diff := WrappingSub(w.highest, s); 0 < diff <= 32 && !Bit32(w.bits, diff))
  }

  function Received(w: Window, s: u16): Window {
    if MoreRecent(s, w.highest) then
      var diff := WrappingSub(s, w.highest);
      Window(s, if diff < 32 then Advance32(w.bits, diff) else 1)
    else if IsNew(w, s) then
      w.(bits := Mark32(w.bits, WrappingSub(w.highest, s)))
    else
      w
  }

  /** What an incoming header does to the state. */
  function Incoming(r: Reliability, h: Header, now: nat): Reliability {
    r.(lastReceived := now,
       unacked := Remaining(r.unacked, h),
       rtt := SampledAll(r.rtt, Samples(r.unacked, h, now)),
       window := Received(r.window, h.sequence),
       pendingAck := r.pendingAck || IsNew(r.window, h.sequence))
  }

  // ---------- retransmission ----------

  /** The timeout in force after `k` resends of one pass that began with timeout `r0`. */
  function Backoff(r0: real, k: nat): real {
    Min(MAX_BACKOFF_MS, Scaled(r0, 1.5, k))
  }

  /** How many of the first `i` packets one pass resends. */
  function Resends(pkts: seq<Unacked>, now: nat, r0: real, i: nat): (k: nat)
    requires i <= |pkts|
    ensures k <= i
    decreases i, 0
  {
    if i == 0 then 0
    else Resends(pkts, now, r0, i - 1) + if IsResent(pkts, now, r0, i - 1) then 1 else 0
  }

  /** Packet `i` is resent when it is older than the timeout its predecessors have backed off to. */
  predicate IsResent(pkts: seq<Unacked>, now: nat, r0: real, i: nat)
    requires i < |pkts|
    decreases i, 1
  {
    Elapsed(now, pkts[i].timeSent) >= Backoff(r0, Resends(pkts, now, r0, i))
  }

  function AfterPass(pkts: seq<Unacked>, now: nat, r0: real): (after: seq<Unacked>)
    ensures |after| == |pkts|
  {
    seq(|pkts|, i requires 0 <= i < |pkts| =>
      if IsResent(pkts, now, r0, i) then pkts[i].(timeSent := now, retries := pkts[i].retries + 1) else pkts[i])
  }

  /** The wire data resent among the first `i` packets, in order. */
  function ResentData(pkts: seq<Unacked>, now: nat, r0: real, i: nat): seq<Bytes>
    requires i <= |pkts|
  {
    if i == 0 then []
    else
      ResentData(pkts, now, r0, i - 1) + if IsResent(pkts, now, r0, i - 1) then [pkts[i - 1].data] else []
  }

  function Retransmitted(r: Reliability, now: nat): Reliability {
    var n := Resends(r.unacked, now, r.rtt.rto, |r.unacked|);
    r.(unacked := AfterPass(r.unacked, now, r.rtt.rto),
       rtt := r.rtt.(rto := Backoff(r.rtt.rto, n)),
       retransmits := r.retransmits + n)
  }

  /** Multiplying the capped timeout and capping again is the same as capping the product once. */
  lemma {:induction false} BackoffStep(r0: real, k: nat)
    requires 0.0 < r0 <= MAX_BACKOFF_MS
    ensures Backoff(r0, 0) == r0
    ensures Backoff(r0, k + 1) == Min(Backoff(r0, k) * 1.5, MAX_BACKOFF_MS)
    ensures r0 <= Backoff(r0, k) <= MAX_BACKOFF_MS
    ensures r0 <= Scaled(r0, 1.5, k)
  {
    if k > 0 {
      BackoffStep(r0, k - 1);
    }
  }

  /** `ReliableConnectionState`, changed in place. */
  class ReliableConnectionState {
    ghost const endpoint: nat  // the connection this state belongs to
    var nextOutgoingSequence: u16
    var highestReceivedSequence: u16
    var receivedSequenceBitfield: bv32
    var smoothedRttMs: real
    var rttVarianceMs: real
    var retransmissionTimeoutMs: real
    var isFirstRttSample: bool
    var unacknowledgedPackets: seq<Unacked>
    var lastPacketReceivedTime: nat
    var hasPendingAckToSend: bool
    var statsRetransmits: nat

    ghost function Rtt(): Estimator
      reads this
    {
      Estimator(smoothedRttMs, rttVarianceMs, retransmissionTimeoutMs, isFirstRttSample)
    }

    ghost function Value(): Reliability
      reads this
    {
      Reliability(nextOutgoingSequence, Window(highestReceivedSequence, receivedSequenceBitfield), Rtt(),
                  unacknowledgedPackets, lastPacketReceivedTime, hasPendingAckToSend, statsRetransmits)
    }

    ghost predicate Valid()
      reads this
    {
      TimeoutOk(Value())
    }

    constructor (now: nat, ghost endpoint: nat)
      ensures Valid() && this.endpoint == endpoint
      ensures Value() == FRESH.(lastReceived := now)
    {
      this.endpoint := endpoint;
      nextOutgoingSequence := 1;
      highestReceivedSequence := 0;
      receivedSequenceBitfield := 0;
      smoothedRttMs := 0.0;
      rttVarianceMs := 0.0;
      retransmissionTimeoutMs := INITIAL_RTO_MS;
      isFirstRttSample := true;
      unacknowledgedPackets := [];
      lastPacketReceivedTime := now;
      hasPendingAckToSend := false;
      statsRetransmits := 0;
    }

    method ApplyRttSample(sample: real)
      modifies this`smoothedRttMs, this`rttVarianceMs, this`retransmissionTimeoutMs, this`isFirstRttSample
      ensures Rtt() == Sampled(old(Rtt()), sample)
      ensures Valid()
    {
      if isFirstRttSample {
        smoothedRttMs := sample;
        rttVarianceMs := sample * 0.5;
        isFirstRttSample := false;
      } else {
        var delta := sample - smoothedRttMs;
        smoothedRttMs := smoothedRttMs + 0.125 * delta;
        rttVarianceMs := rttVarianceMs + 0.25 * (Abs(delta) - rttVarianceMs);
      }
      retransmissionTimeoutMs := Clamp(smoothedRttMs + 4.0 * rttVarianceMs, MIN_RTO_MS, MAX_RTO_MS);
    }

    /** Drops the acknowledged packets and returns their samples. */
    method RetainUnacked(h: Header, now: nat) returns (samples: seq<real>)
      modifies this`unacknowledgedPackets
      ensures unacknowledgedPackets == Remaining(old(unacknowledgedPackets), h)
      ensures samples == Samples(old(unacknowledgedPackets), h, now)
    {
      samples := [];
      var pkts := unacknowledgedPackets;
      var kept := [];
      for i := 0 to |pkts|
        invariant unacknowledgedPackets == pkts
        invariant kept == Remaining(pkts[..i], h)
        invariant samples == Samples(pkts[..i], h, now)
      {
        assert pkts[..i + 1][..i] == pkts[..i];
        var pkt := pkts[i];
        var acked := false;
        if pkt.sequence == h.ack {
          acked := true;
        } else if MoreRecent(h.ack, pkt.sequence) {
          var diff := WrappingSub(h.ack, pkt.sequence);
          if diff > 0 && diff <= 32 {
            if Bit32(h.ackBits, diff - 1) {
              acked := true;
            }
          }
        }
        if acked {
          if pkt.retries == 0 {
            samples := samples + [Elapsed(now, pkt.timeSent)];
          }
        } else {
          kept := kept + [pkt];
        }
      }
      assert pkts[..|pkts|] == pkts;
      unacknowledgedPackets := kept;
    }

    method ApplyRttSamples(samples: seq<real>)
      requires Valid()
      modifies this`smoothedRttMs, this`rttVarianceMs, this`retransmissionTimeoutMs, this`isFirstRttSample
      ensures Rtt() == SampledAll(old(Rtt()), samples)
      ensures Valid()
    {
      for i := 0 to |samples|
        invariant Valid()
        invariant Rtt() == SampledAll(old(Rtt()), samples[..i])
      {
        assert samples[..i + 1][..i] == samples[..i];
        ApplyRttSample(samples[i]);
      }
      assert samples[..|samples|] == samples;
    }

    method UpdateReceiveWindow(sequence: u16) returns (isNew: bool)
      modifies this`highestReceivedSequence, this`receivedSequenceBitfield
      ensures Value().window == Received(old(Value()).window, sequence)
      ensures isNew == IsNew(old(Value()).window, sequence)
    {
      if MoreRecent(sequence, highestReceivedSequence) {
        var diff := WrappingSub(sequence, highestReceivedSequence);
        if diff < 32 {
          receivedSequenceBitfield := Advance32(receivedSequenceBitfield, diff);
        } else {
          receivedSequenceBitfield := 1;
        }
        highestReceivedSequence := sequence;
      } else {
        var diff := WrappingSub(highestReceivedSequence, sequence);
        if diff == 0 || diff > 32 {
          return false;
        }
        if Bit32(receivedSequenceBitfield, diff) {
          return false;
        }
        receivedSequenceBitfield := Mark32(receivedSequenceBitfield, diff);
      }
      return true;
    }

    /** Clears what the header acknowledges, samples the round trip and answers whether the packet is new. */
    method ProcessIncomingHeader(h: Header, now: nat) returns (isNew: bool)
      requires Valid()
      modifies this
      ensures Valid()
      ensures Value() == Incoming(old(Value()), h, now)
      ensures isNew == IsNew(old(Value()).window, h.sequence)
    {
      hide Remaining, Samples, SampledAll, Received, IsNew;
      lastPacketReceivedTime := now;
      var samples := RetainUnacked(h, now);
      ApplyRttSamples(samples);
      isNew := UpdateReceiveWindow(h.sequence);
      if isNew {
        hasPendingAckToSend := true;
      }
    }

    method ProcessRetransmissions(now: nat) returns (resendQueue: seq<Bytes>)
      requires Valid()
      modifies this`unacknowledgedPackets, this`retransmissionTimeoutMs, this`statsRetransmits
      ensures Valid()
      ensures Value() == Retransmitted(old(Value()), now)
      ensures resendQueue == ResentData(old(unacknowledgedPackets), now, old(retransmissionTimeoutMs),
                                        |old(unacknowledgedPackets)|)
    {
      resendQueue := [];
      ghost var pkts := unacknowledgedPackets;
      ghost var r0 := retransmissionTimeoutMs;
      BackoffStep(r0, 0);
      for i := 0 to |unacknowledgedPackets|
        invariant |unacknowledgedPackets| == |pkts|
        invariant Valid()
        invariant retransmissionTimeoutMs == Backoff(r0, Resends(pkts, now, r0, i))
        invariant statsRetransmits == old(statsRetransmits) + Resends(pkts, now, r0, i)
        invariant resendQueue == ResentData(pkts, now, r0, i)
        invariant forall j :: 0 <= j < i ==> unacknowledgedPackets[j] == AfterPass(pkts, now, r0)[j]
        invariant forall j :: i <= j < |pkts| ==> unacknowledgedPackets[j] == pkts[j]
      {
        var pkt := unacknowledgedPackets[i];
        var elapsed := Elapsed(now, pkt.timeSent);
        BackoffStep(r0, Resends(pkts, now, r0, i));
        if elapsed >= retransmissionTimeoutMs {
          resendQueue := resendQueue + [pkt.data];
          unacknowledgedPackets :=
            unacknowledgedPackets[i := pkt.(timeSent := now, retries := pkt.retries + 1)];
          statsRetransmits := statsRetransmits + 1;
          retransmissionTimeoutMs := Min(retransmissionTimeoutMs * 1.5, MAX_BACKOFF_MS);
        }
      }
      assert unacknowledgedPackets == AfterPass(pkts, now, r0);
    }

    /** True exactly when more than `timeout` has passed since the last packet. */
    method IsTimedOut(now: nat, timeout: nat) returns (late: bool)
      ensures late <==> lastPacketReceivedTime + timeout < now
    {
      late := Elapsed(now, lastPacketReceivedTime) > timeout as real;
    }
  }
}
