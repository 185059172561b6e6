/**
  What the flushes of a connection hand to its socket, and when, over every interleaving of sends,
  flushes and incoming bytes. The time of a packet's last emission is computed from the flushes
  alone; what the connection stores must agree with it.
 */
module Emissions {
  import opened Numbers
  import opened Bits
  import opened Protocol
  import opened Retransmission
  import opened RttBounds
  import opened Packet
  import opened Pipeline
  import opened Connection
  import opened Conservation

  lemma OneMoreEvent(cipher: Cipher, isServer: bool, born: nat, events: seq<Event>, e: Event)
    ensures After(cipher, isServer, born, events + [e]) == Step(cipher, After(cipher, isServer, born, events), e)
  {
    hide Step;
    assert (events + [e])[..|events|] == events;
  }

  // ---------- what a flush emits ----------

  /** The numbers that were emitted again between `s` and `after`. */
  function Again(s: Sender, after: Sender): seq<nat> {
    if s.resends <= after.resends then after.resends[|s.resends|..] else []
  }

  /** The data of these packets, in order. */
  function DataOf(sent: map<nat, Bytes>, numbers: seq<nat>): (data: seq<Bytes>)
    requires forall n | n in numbers :: n in sent
    ensures |data| == |numbers|
  {
    seq(|numbers|, i requires 0 <= i < |numbers| => (assert numbers[i] in numbers; sent[numbers[i]]))
  }

  lemma FlushResends(cipher: Cipher, s: Sender, now: nat)
    ensures var r := s.conn.rel;
            Again(s, Flushed(cipher, s, now)) == ResentNumbers(r.unacked, s.numbers, now, r.rtt.rto, |r.unacked|)
    ensures s.resends <= Flushed(cipher, s, now).resends
  {
    hide Updated, NewNumbers, NewlySent, NewNonces, NumberOf, ResentNumbers;
  }

  /** The due resends of a flush are the packets whose numbers it emits again. */
  lemma DueResends(s: Sender, now: nat)
    requires Conserved(s)
    ensures var r := s.conn.rel;
            var again := ResentNumbers(r.unacked, s.numbers, now, r.rtt.rto, |r.unacked|);
            && (forall n | n in again :: n in s.numbers && n in s.sent)
            && ResentData(r.unacked, now, r.rtt.rto, |r.unacked|) == DataOf(s.sent, again)
  {
    hide ResentNumbers, ResentData, Increasing, FramedAs;
    var r := s.conn.rel;
    var again := ResentNumbers(r.unacked, s.numbers, now, r.rtt.rto, |r.unacked|);
    ResentAreOutstanding(r.unacked, s.numbers, now, r.rtt.rto, |r.unacked|);
    ResentDataByNumber(r.unacked, s.numbers, s.sent, now, r.rtt.rto, |r.unacked|);
    NumbersAreSent(s);
    hide Conserved;
    assert forall n | n in again :: n in s.numbers && n in s.sent;
  }

  lemma NumbersAreSent(s: Sender)
    requires Conserved(s)
    ensures forall n | n in s.numbers :: n in s.sent
  {
    hide FramedAs, Increasing;
    assert forall n | n in s.numbers :: n in Outstanding(s);
  }

  lemma FlushEmits(cipher: Cipher, s: Sender, now: nat)
    requires Conserved(s)
    ensures var after := Flushed(cipher, s, now);
            var again := Again(s, after);
            && after.resends == s.resends + again
            && (forall n | n in again :: n in s.numbers && n in s.sent)
            && Emission(cipher, s.conn, now) == DataOf(s.sent, again) + Wires(cipher, s.conn, |s.conn.queue|)
  {
    hide Conserved, Flushed, ResentNumbers, ResentData, Wires, DataOf;
    FlushResends(cipher, s, now);
    DueResends(s, now);
  }

  /**
    In every run a flush hands to the socket, in order, the data of the packets it counts as emitted
    again and then the frames of the queue; nothing that is due is held back.
   */
  lemma FlushEmitsExactly(cipher: Cipher, isServer: bool, born: nat, events: seq<Event>, now: nat)
    ensures var s, after := After(cipher, isServer, born, events), After(cipher, isServer, born, events + [Flush(now)]);
            var again := Again(s, after);
            && after.resends == s.resends + again
            && (forall n | n in again :: n in s.numbers && n in s.sent)
            && Emission(cipher, s.conn, now) == DataOf(s.sent, again) + Wires(cipher, s.conn, |s.conn.queue|)
  {
    hide After, Conserved, NoncesOk, Sound, Flushed, Emission, Wires, DataOf, Again;
    RunKeepsAll(cipher, isServer, born, events);
    OneMoreEvent(cipher, isServer, born, events, Flush(now));
    FlushEmits(cipher, After(cipher, isServer, born, events), now);
  }

  // ---------- what is queued ----------

  /** The sends since the last flush. */
  function Unflushed(events: seq<Event>): seq<PendingSend> {
    if events == [] then []
    else
      var before := Unflushed(events[..|events| - 1]);
      match events[|events| - 1]
      case Send(data, reliable) => before + [PendingSend(data, reliable)]
      case Greet(key) => before + [PendingSend([RELIABLE] + key, true)]
      case Flush(_) => []
      case Arrive(_, _) => before
  }

  /** The queue is everything sent since the last flush, in that order, if and only if that fits into one mebibyte. */
  lemma {:induction false} QueueIsUnflushedExactly(cipher: Cipher, isServer: bool, born: nat, events: seq<Event>)
    ensures After(cipher, isServer, born, events).conn.queue == Unflushed(events) <==>
            TotalBytes(Unflushed(events)) <= 1024 * 1024
  {
    RunKeepsAll(cipher, isServer, born, events);
    if TotalBytes(Unflushed(events)) <= 1024 * 1024 {
      NothingIsDropped(cipher, isServer, born, events);
    }
  }

  lemma {:induction false} NothingIsDropped(cipher: Cipher, isServer: bool, born: nat, events: seq<Event>)
    requires TotalBytes(Unflushed(events)) <= 1024 * 1024
    ensures After(cipher, isServer, born, events).conn.queue == Unflushed(events)
  {
    hide TotalBytes, Step, Conserved, NoncesOk;
    if events != [] {
      var before, e := events[..|events| - 1], events[|events| - 1];
      RunKeepsAll(cipher, isServer, born, before);
      StepQueues(cipher, After(cipher, isServer, born, before), e);
      if !e.Flush? {
        if e.Send? || e.Greet? {
          TotalOfOneMore(Unflushed(before), SendOf(e));
        }
        NothingIsDropped(cipher, isServer, born, before);
      }
    }
  }

  function SendOf(e: Event): PendingSend
    requires e.Send? || e.Greet?
  {
    if e.Send? then PendingSend(e.data, e.reliable) else PendingSend([RELIABLE] + e.key, true)
  }

  lemma StepQueues(cipher: Cipher, s: Sender, e: Event)
    requires Sound(s.conn)
    ensures var queue := Step(cipher, s, e).conn.queue;
            match e {
              case Flush(_) => queue == []
              case Arrive(_, _) => queue == s.conn.queue
              case _ =>
                TotalBytes(s.conn.queue) + |SendOf(e).data| <= 1024 * 1024 ==> queue == s.conn.queue + [SendOf(e)]
            }
  {
    hide TotalBytes, Manager.Handled, Kept, Retransmitted, NewlyUnacked, SequenceOf, NonceOf, NewNumbers, NewlySent,
      NewNonces, NumberOf, ResentNumbers;
    if e.Arrive? {
      ArrivalHears(cipher, s.conn, e.data, e.now);
    }
  }

  // ---------- when a packet was emitted ----------

  /** The numbers that a flush from `s` to `after` emits, for the first time or again. */
  function Leaving(s: Sender, after: Sender): set<nat> {
    (after.sent.Keys - s.sent.Keys) + Elements(Again(s, after))
  }

  /** For every number the time of the last flush that emitted it. */
  function EmittedAt(cipher: Cipher, isServer: bool, born: nat, events: seq<Event>): map<nat, nat> {
    if events == [] then map[]
    else
      var before, e := events[..|events| - 1], events[|events| - 1];
      var at := EmittedAt(cipher, isServer, born, before);
      if e.Flush? then
        at + map n | n in Leaving(After(cipher, isServer, born, before), After(cipher, isServer, born, events)) :: e.now
      else at
  }

  /** Every packet carries the time that `at` has for its number. */
  ghost predicate Stamped(pkts: seq<Unacked>, numbers: seq<nat>, at: map<nat, nat>) {
    && |numbers| == |pkts|
    && (forall i :: 0 <= i < |pkts| ==> numbers[i] in at && pkts[i].timeSent == at[numbers[i]])
  }

  lemma {:induction false} KeptStamps(pkts: seq<Unacked>, numbers: seq<nat>, at: map<nat, nat>, h: Header)
    requires Stamped(pkts, numbers, at)
    ensures Stamped(Remaining(pkts, h), KeptNumbers(pkts, numbers, h), at)
  {
    hide Acked;
    if pkts != [] {
      var last := |pkts| - 1;
      KeptStamps(pkts[..last], numbers[..last], at, h);
    }
  }

  lemma ResentExactly(pkts: seq<Unacked>, numbers: seq<nat>, now: nat, r0: real, k: nat)
    requires |numbers| == |pkts| && Increasing(numbers) && k < |pkts|
    ensures numbers[k] in ResentNumbers(pkts, numbers, now, r0, |pkts|) <==> IsResent(pkts, now, r0, k)
  {
    hide IsResent, ResentNumbers, Times, Increasing;
    ResentOnce(pkts, numbers, now, r0, |pkts|, k);
    TimesOfConcat(ResentNumbers(pkts, numbers, now, r0, |pkts|), [], numbers[k]);
  }

  /** A pass stamps what it resends and nothing else. */
  lemma PassStamps(r: Reliability, now: nat, numbers: seq<nat>, at: map<nat, nat>, later: map<nat, nat>)
    requires Stamped(r.unacked, numbers, at) && Increasing(numbers)
    requires var again := ResentNumbers(r.unacked, numbers, now, r.rtt.rto, |r.unacked|);
             forall n | n in numbers :: n in later && later[n] == if n in again then now else at[n]
    ensures Stamped(Retransmitted(r, now).unacked, numbers, later)
  {
    var after := Retransmitted(r, now).unacked;
    hide ResentNumbers, Increasing;
    forall i | 0 <= i < |after|
      ensures numbers[i] in later && after[i].timeSent == later[numbers[i]]
    {
      hide IsResent;
      assert numbers[i] in numbers;
      ResentExactly(r.unacked, numbers, now, r.rtt.rto, i);
    }
  }

  lemma {:induction false} NewlyStamped(cipher: Cipher, s: Sender, now: nat, n: nat)
    requires n <= |s.conn.queue|
    ensures |NewlyUnacked(cipher, s.conn, now, n)| == |NewNumbers(cipher, s, n)|
    ensures forall i :: 0 <= i < |NewlyUnacked(cipher, s.conn, now, n)| ==>
              NewlyUnacked(cipher, s.conn, now, n)[i].timeSent == now
  {
    hide WireOf, SequenceOf, NumberOf;
    if n > 0 {
      NewlyStamped(cipher, s, now, n - 1);
    }
  }

  lemma StampedConcat(a: seq<Unacked>, m: seq<nat>, b: seq<Unacked>, n: seq<nat>, at: map<nat, nat>)
    requires Stamped(a, m, at) && Stamped(b, n, at)
    ensures Stamped(a + b, m + n, at)
  {}

  /** The numbers a flush emits are those it emits again and those of the queue. */
  lemma LeavingExactly(cipher: Cipher, s: Sender, now: nat)
    requires Conserved(s)
    ensures var r, leaving := s.conn.rel, Leaving(s, Flushed(cipher, s, now));
            var again := ResentNumbers(r.unacked, s.numbers, now, r.rtt.rto, |r.unacked|);
            && (forall n | n in NewNumbers(cipher, s, |s.conn.queue|) :: n in leaving)
            && (forall n | n in s.numbers :: n in leaving <==> n in again)
  {
    var n := |s.conn.queue|;
    FlushResends(cipher, s, now);
    NumbersAreSent(s);
    ItemsKeepSent(cipher, s, n);
    ItemsKeepNumbers(cipher, s, n);
    assert Flushed(cipher, s, now).sent == NewlySent(cipher, s, n);
    hide Flushed, Again, ResentNumbers, NewNumbers, NewlySent, Tagged, Increasing, FramedAs, NumberOf;
  }

  lemma FlushStamps(cipher: Cipher, s: Sender, now: nat, at: map<nat, nat>)
    requires Conserved(s) && Stamped(s.conn.rel.unacked, s.numbers, at)
    ensures var after := Flushed(cipher, s, now);
            Stamped(after.conn.rel.unacked, after.numbers, at + map n | n in Leaving(s, after) :: now)
  {
    hide Conserved, Flushed, Leaving, Stamped, NewNumbers, NewlyUnacked, Retransmitted;
    var after, n := Flushed(cipher, s, now), |s.conn.queue|;
    var later := at + map m | m in Leaving(s, after) :: now;
    var newer, added := NewlyUnacked(cipher, s.conn, now, n), NewNumbers(cipher, s, n);
    FlushAppends(cipher, s, now);
    QueuedAreStamped(cipher, s, now, at);
    OutstandingAreStamped(cipher, s, now, at);
    StampedConcat(Retransmitted(s.conn.rel, now).unacked, s.numbers, newer, added, later);
  }

  lemma FlushAppends(cipher: Cipher, s: Sender, now: nat)
    ensures var after, n := Flushed(cipher, s, now), |s.conn.queue|;
            && after.conn.rel.unacked == Retransmitted(s.conn.rel, now).unacked + NewlyUnacked(cipher, s.conn, now, n)
            && after.numbers == s.numbers + NewNumbers(cipher, s, n)
  {
    hide Retransmitted, NewlyUnacked, NewNumbers, SequenceOf, NonceOf, NewlySent, NewNonces, NumberOf, ResentNumbers;
  }

  lemma QueuedAreStamped(cipher: Cipher, s: Sender, now: nat, at: map<nat, nat>)
    requires Conserved(s)
    ensures var n := |s.conn.queue|;
            Stamped(NewlyUnacked(cipher, s.conn, now, n), NewNumbers(cipher, s, n),
                    at + map m | m in Leaving(s, Flushed(cipher, s, now)) :: now)
  {
    hide Conserved, Flushed, Leaving, NewNumbers, NewlyUnacked;
    var added := NewNumbers(cipher, s, |s.conn.queue|);
    LeavingExactly(cipher, s, now);
    NewlyStamped(cipher, s, now, |s.conn.queue|);
    assert forall i :: 0 <= i < |added| ==> added[i] in added;
  }

  lemma OutstandingAreStamped(cipher: Cipher, s: Sender, now: nat, at: map<nat, nat>)
    requires Conserved(s) && Stamped(s.conn.rel.unacked, s.numbers, at)
    ensures Stamped(Retransmitted(s.conn.rel, now).unacked, s.numbers,
                    at + map m | m in Leaving(s, Flushed(cipher, s, now)) :: now)
  {
    hide Conserved, Flushed, Leaving, ResentNumbers, Retransmitted, Increasing, Stamped;
    LeavingExactly(cipher, s, now);
    OutstandingBeforeNext(s);
    StampsInNumbers(s.conn.rel.unacked, s.numbers, at);
    PassStamps(s.conn.rel, now, s.numbers, at, at + map m | m in Leaving(s, Flushed(cipher, s, now)) :: now);
  }

  lemma StampsInNumbers(pkts: seq<Unacked>, numbers: seq<nat>, at: map<nat, nat>)
    requires Stamped(pkts, numbers, at)
    ensures forall n | n in numbers :: n in at
  {}

  lemma StepStamps(cipher: Cipher, s: Sender, e: Event, at: map<nat, nat>)
    requires Conserved(s) && Stamped(s.conn.rel.unacked, s.numbers, at)
    ensures var after := Step(cipher, s, e);
            Stamped(after.conn.rel.unacked, after.numbers,
                    if e.Flush? then at + map n | n in Leaving(s, after) :: e.now else at)
  {
    hide Conserved, Stamped, Leaving;
    match e
    case Send(_, _) =>
    case Greet(_) =>
    case Flush(now) => FlushStamps(cipher, s, now, at);
    case Arrive(data, now) =>
      ArrivalHears(cipher, s.conn, data, now);
      hide Manager.Handled, HeaderIn, Remaining, KeptNumbers, Samples, SampledAll, Received, IsNew;
      if CarriesHeader(data) {
        KeptStamps(s.conn.rel.unacked, s.numbers, at, HeaderIn(data));
      }
  }

  /** In every run the time stored with an outstanding packet is that of the last flush that emitted it. */
  lemma {:induction false} TimesAreOfLastEmission(cipher: Cipher, isServer: bool, born: nat, events: seq<Event>)
    ensures var s, at := After(cipher, isServer, born, events), EmittedAt(cipher, isServer, born, events);
            && |s.numbers| == |s.conn.rel.unacked|
            && forall i :: 0 <= i < |s.numbers| ==>
                 s.numbers[i] in at && s.conn.rel.unacked[i].timeSent == at[s.numbers[i]]
  {
    RunStamps(cipher, isServer, born, events);
  }

  lemma {:induction false} RunStamps(cipher: Cipher, isServer: bool, born: nat, events: seq<Event>)
    ensures var s := After(cipher, isServer, born, events);
            Stamped(s.conn.rel.unacked, s.numbers, EmittedAt(cipher, isServer, born, events))
  {
    if events != [] {
      var before, e := events[..|events| - 1], events[|events| - 1];
      hide Stamped, Conserved, Step, Sound, NoncesOk, Leaving;
      RunStamps(cipher, isServer, born, before);
      RunKeepsAll(cipher, isServer, born, before);
      StepStamps(cipher, After(cipher, isServer, born, before), e, EmittedAt(cipher, isServer, born, before));
    }
  }

  // ---------- which packets leave ----------

  lemma {:induction false} NewlySentAreFramed(cipher: Cipher, s: Sender, n: nat)
    requires Conserved(s) && n <= |s.conn.queue|
    ensures forall m | m in NewlySent(cipher, s, n) && m !in s.sent ::
              NewlySent(cipher, s, n)[m] in Wires(cipher, s.conn, n)
  {
    hide WireOf, FramedAs, Tagged, Increasing, NumberOf, Wrap16;
    if n > 0 {
      NewlySentAreFramed(cipher, s, n - 1);
    }
  }

  lemma LeavingHasData(cipher: Cipher, s: Sender, now: nat, n: nat)
    requires Conserved(s) && n in Leaving(s, Flushed(cipher, s, now))
    ensures var after := Flushed(cipher, s, now);
            n in after.sent && after.sent[n] in Emission(cipher, s.conn, now)
  {
    var after := Flushed(cipher, s, now);
    FlushEmits(cipher, s, now);
    FlushSends(cipher, s, now);
    NewlySentAreFramed(cipher, s, |s.conn.queue|);
    ItemsKeepSent(cipher, s, |s.conn.queue|);
    hide Flushed, Again, Emission, Wires, NewlySent, NewNumbers, Conserved, FramedAs, DataOf;
    if n in Again(s, after) {
      InData(s.sent, Again(s, after), n);
    }
  }

  lemma FlushSends(cipher: Cipher, s: Sender, now: nat)
    ensures Flushed(cipher, s, now).sent == NewlySent(cipher, s, |s.conn.queue|)
  {
    hide Updated, NewNumbers, NewlySent, NewNonces, NumberOf, ResentNumbers;
  }

  /** What the times speak of is what is emitted: every number that leaves has its data in the output of the flush. */
  lemma LeavingIsEmitted(cipher: Cipher, isServer: bool, born: nat, events: seq<Event>, now: nat, n: nat)
    requires n in Leaving(After(cipher, isServer, born, events), After(cipher, isServer, born, events + [Flush(now)]))
    ensures var s, after := After(cipher, isServer, born, events), After(cipher, isServer, born, events + [Flush(now)]);
            n in after.sent && after.sent[n] in Emission(cipher, s.conn, now)
  {
    hide After, NoncesOk, Sound, Conserved, Flushed, Leaving, Emission;
    RunKeepsAll(cipher, isServer, born, events);
    OneMoreEvent(cipher, isServer, born, events, Flush(now));
    LeavingHasData(cipher, After(cipher, isServer, born, events), now, n);
  }

  lemma PositionOf(numbers: seq<nat>, n: nat) returns (i: nat)
    requires n in numbers
    ensures i < |numbers| && numbers[i] == n
  {
    i :| 0 <= i < |numbers| && numbers[i] == n;
  }

  /** Whatever was last emitted two seconds ago and is still outstanding leaves again with the next flush. */
  lemma TwoSecondsLaterItLeavesAgain(cipher: Cipher, isServer: bool, born: nat, events: seq<Event>, now: nat, n: nat)
    requires n in Outstanding(After(cipher, isServer, born, events))
    requires n in EmittedAt(cipher, isServer, born, events)
    requires EmittedAt(cipher, isServer, born, events)[n] + 2000 <= now
    ensures var s := After(cipher, isServer, born, events);
            && n in s.sent && s.sent[n] in Emission(cipher, s.conn, now)
            && n in Again(s, After(cipher, isServer, born, events + [Flush(now)]))
  {
    hide After, EmittedAt, Conserved, NoncesOk, Sound, Flushed, Again, Emission, IsResent, ResentNumbers;
    var s := After(cipher, isServer, born, events);
    var i := PositionOf(s.numbers, n);
    RunKeepsAll(cipher, isServer, born, events);
    RunStamps(cipher, isServer, born, events);
    OneMoreEvent(cipher, isServer, born, events, Flush(now));
    OldPacketsAreAlwaysResent(s.conn.rel.unacked, now, s.conn.rel.rtt.rto, i);
    DueIsEmitted(cipher, s, now, i);
  }

  /** Whatever the pass finds due is among what the flush emits. */
  lemma DueIsEmitted(cipher: Cipher, s: Sender, now: nat, i: nat)
    requires Conserved(s) && i < |s.numbers| && |s.numbers| == |s.conn.rel.unacked|
    requires IsResent(s.conn.rel.unacked, now, s.conn.rel.rtt.rto, i)
    ensures var n := s.numbers[i];
            && n in s.sent && s.sent[n] in Emission(cipher, s.conn, now)
            && n in Again(s, Flushed(cipher, s, now))
  {
    hide Conserved, Flushed, Again, Emission, IsResent, ResentNumbers, Increasing, Wires, DataOf;
    OutstandingBeforeNext(s);
    ResentExactly(s.conn.rel.unacked, s.numbers, now, s.conn.rel.rtt.rto, i);
    FlushResends(cipher, s, now);
    FlushEmits(cipher, s, now);
    InData(s.sent, Again(s, Flushed(cipher, s, now)), s.numbers[i]);
  }

  lemma InData(sent: map<nat, Bytes>, numbers: seq<nat>, n: nat)
    requires (forall m | m in numbers :: m in sent) && n in numbers
    ensures sent[n] in DataOf(sent, numbers)
  {
    var i := PositionOf(numbers, n);
    assert DataOf(sent, numbers)[i] == sent[n];
  }

  /** Whatever was last emitted less than the timeout ago is not emitted again. */
  lemma NotBeforeTheTimeout(cipher: Cipher, isServer: bool, born: nat, events: seq<Event>, now: nat, n: nat)
    requires n in EmittedAt(cipher, isServer, born, events)
    requires TimeSince(EmittedAt(cipher, isServer, born, events)[n], now) <
             After(cipher, isServer, born, events).conn.rel.rtt.rto
    ensures n !in Again(After(cipher, isServer, born, events), After(cipher, isServer, born, events + [Flush(now)]))
  {
    var s, at := After(cipher, isServer, born, events), EmittedAt(cipher, isServer, born, events);
    RunKeepsAll(cipher, isServer, born, events);
    OutstandingBeforeNext(s);
    RunStamps(cipher, isServer, born, events);
    OneMoreEvent(cipher, isServer, born, events, Flush(now));
    FlushResends(cipher, s, now);
    hide After, EmittedAt, Conserved, NoncesOk, Increasing, Flushed, Again, IsResent, ResentNumbers;
    ResentAreOutstanding(s.conn.rel.unacked, s.numbers, now, s.conn.rel.rtt.rto, |s.conn.rel.unacked|);
    if n in s.numbers {
      var i := PositionOf(s.numbers, n);
      YoungPacketsWait(s.conn.rel.unacked, now, s.conn.rel.rtt.rto, i);
      ResentExactly(s.conn.rel.unacked, s.numbers, now, s.conn.rel.rtt.rto, i);
    }
  }

  /** Milliseconds from `at` to `now`. */
  function TimeSince(at: nat, now: nat): real {
    if at <= now then (now - at) as real else 0.0
  }

  // ---------- the samples of a run ----------

  /** The round trips `h` measures: from the only emission of each packet it acknowledges. */
  function RoundTrips(numbers: seq<nat>, resends: seq<nat>, at: map<nat, nat>, h: Header, now: nat): seq<real> {
    if numbers == [] then []
    else
      var n := numbers[|numbers| - 1];
      RoundTrips(numbers[..|numbers| - 1], resends, at, h, now)
      + if Acked(h, Wrap16(n)) && n !in resends && n in at then [TimeSince(at[n], now)] else []
  }

  lemma {:induction false} SamplesAreRoundTrips(pkts: seq<Unacked>, numbers: seq<nat>, sent: map<nat, Bytes>,
                                                resends: seq<nat>, at: map<nat, nat>, h: Header, now: nat)
    requires Tagged(pkts, numbers, sent) && Stamped(pkts, numbers, at) && Counted(pkts, numbers, resends)
    ensures Samples(pkts, h, now) == RoundTrips(numbers, resends, at, h, now)
  {
    hide Acked, Times, Wrap16;
    if pkts != [] {
      var last := |pkts| - 1;
      SamplesAreRoundTrips(pkts[..last], numbers[..last], sent, resends, at, h, now);
      TimesOfConcat(resends, [], numbers[last]);
    }
  }

  /** All samples the incoming headers of a run give, in order. */
  function RoundTripsOf(cipher: Cipher, isServer: bool, born: nat, events: seq<Event>): seq<real> {
    if events == [] then []
    else
      var before, e := events[..|events| - 1], events[|events| - 1];
      RoundTripsOf(cipher, isServer, born, before) + LastRoundTrips(cipher, isServer, born, before, e)
  }

  function LastRoundTrips(cipher: Cipher, isServer: bool, born: nat, before: seq<Event>, e: Event): seq<real> {
    var s := After(cipher, isServer, born, before);
    if e.Arrive? && CarriesHeader(e.data) then
      RoundTrips(s.numbers, s.resends, EmittedAt(cipher, isServer, born, before), HeaderIn(e.data), e.now)
    else []
  }

  /** Same mean and deviation; the timeout may have been lengthened in between. */
  predicate SameAverages(e: Estimator, f: Estimator) {
    e.smoothed == f.smoothed && e.variance == f.variance && e.first == f.first
  }

  lemma {:induction false} AveragesIgnoreTimeout(e: Estimator, f: Estimator, samples: seq<real>)
    requires SameAverages(e, f)
    ensures SameAverages(SampledAll(e, samples), SampledAll(f, samples))
    ensures samples != [] ==> SampledAll(e, samples) == SampledAll(f, samples)
  {
    hide Abs, Clamp;
    if samples != [] {
      AveragesIgnoreTimeout(e, f, samples[..|samples| - 1]);
    }
  }

  lemma {:induction false} SampledConcat(e: Estimator, a: seq<real>, b: seq<real>)
    ensures SampledAll(e, a + b) == SampledAll(SampledAll(e, a), b)
  {
    hide Sampled;
    if b == [] {
      assert a + b == a;
    } else {
      SampledConcat(e, a, b[..|b| - 1]);
      assert (a + b)[..|a + b| - 1] == a + b[..|b| - 1];
    }
  }

  lemma StepAverages(cipher: Cipher, s: Sender, e: Event, at: map<nat, nat>)
    requires Conserved(s) && RetriesOk(s) && Stamped(s.conn.rel.unacked, s.numbers, at)
    ensures var after := Step(cipher, s, e).conn.rel.rtt;
            if e.Arrive? && CarriesHeader(e.data) then
              after == SampledAll(s.conn.rel.rtt, RoundTrips(s.numbers, s.resends, at, HeaderIn(e.data), e.now))
            else SameAverages(after, s.conn.rel.rtt)
  {
    match e
    case Send(_, _) =>
    case Greet(_) =>
    case Flush(_) =>
      hide Conserved, RetriesOk, Stamped, AfterPass, Resends, Backoff, SequenceOf, NonceOf, NewlyUnacked, NewNumbers,
        NewlySent, NewNonces, NumberOf, ResentNumbers;
    case Arrive(data, now) =>
      ArrivalHears(cipher, s.conn, data, now);
      hide Manager.Handled, HeaderIn, Remaining, Received, IsNew, Samples, SampledAll, RoundTrips, Stamped, Tagged,
        Counted;
      if CarriesHeader(data) {
        SamplesAreRoundTrips(s.conn.rel.unacked, s.numbers, s.sent, s.resends, at, HeaderIn(data), now);
      }
  }

  /**
    The estimator over runs: mean and deviation are those of exactly the round trips of packets
    emitted once, each from its emission to the header that acknowledged it; and a header that gives
    a round trip also makes the timeout that of all of them, undoing every backoff.
   */
  lemma {:induction false} EstimatorTookRoundTrips(cipher: Cipher, isServer: bool, born: nat, events: seq<Event>)
    ensures var rtt := After(cipher, isServer, born, events).conn.rel.rtt;
            var all := SampledAll(FRESH.rtt, RoundTripsOf(cipher, isServer, born, events));
            && SameAverages(rtt, all)
            && (events != [] &&
                LastRoundTrips(cipher, isServer, born, events[..|events| - 1], events[|events| - 1]) != [] ==>
                  rtt == all)
  {
    if events != [] {
      var before, e := events[..|events| - 1], events[|events| - 1];
      EstimatorTookRoundTrips(cipher, isServer, born, before);
      RunKeepsAll(cipher, isServer, born, before);
      RetriesCountResends(cipher, isServer, born, before);
      RunStamps(cipher, isServer, born, before);
      hide Stamped, Conserved, RetriesOk, Step, Sound, NoncesOk, SampledAll, RoundTrips, SameAverages;
      var s, at := After(cipher, isServer, born, before), EmittedAt(cipher, isServer, born, before);
      StepAverages(cipher, s, e, at);
      var earlier := RoundTripsOf(cipher, isServer, born, before);
      var last := LastRoundTrips(cipher, isServer, born, before, e);
      SampledConcat(FRESH.rtt, earlier, last);
      AveragesIgnoreTimeout(s.conn.rel.rtt, SampledAll(FRESH.rtt, earlier), last);
      NoSample(s.conn.rel.rtt, SampledAll(FRESH.rtt, earlier), Step(cipher, s, e).conn.rel.rtt);
    }
  }

  lemma NoSample(e: Estimator, f: Estimator, g: Estimator)
    ensures SampledAll(f, []) == f
    ensures SameAverages(e, f) && SameAverages(g, e) ==> SameAverages(g, f)
  {}

  /** Section 2 of RFC 6298 over runs, as closed sums of those round trips. */
  lemma MeanOfRoundTrips(cipher: Cipher, isServer: bool, born: nat, events: seq<Event>)
    ensures var rtt, all := After(cipher, isServer, born, events).conn.rel.rtt,
                            RoundTripsOf(cipher, isServer, born, events);
            if all == [] then rtt.first
            else
              && rtt.smoothed == Weighted(all[0], all[1..], 0.875)
              && rtt.variance == Weighted(all[0] * 0.5, Deviations(all), 0.75)
  {
    hide After, RoundTripsOf, LastRoundTrips, Weighted, Deviations;
    EstimatorTookRoundTrips(cipher, isServer, born, events);
    var all := RoundTripsOf(cipher, isServer, born, events);
    if all != [] {
      EstimatorIsWeightedAverage(all);
    }
  }

  // ---------- the timeout while nothing is heard ----------

  predicate NothingHeard(events: seq<Event>) {
    forall i :: 0 <= i < |events| ==> !events[i].Arrive?
  }

  lemma {:induction false} BackoffAdds(r0: real, j: nat, k: nat)
    requires 0.0 < r0 <= MAX_BACKOFF_MS
    ensures 0.0 < Backoff(r0, j) <= MAX_BACKOFF_MS
    ensures Backoff(Backoff(r0, j), k) == Backoff(r0, j + k)
  {
    hide Backoff;
    BackoffStep(r0, j);
    BackoffStep(Backoff(r0, j), 0);
    if k > 0 {
      BackoffAdds(r0, j, k - 1);
      BackoffStep(Backoff(r0, j), k - 1);
      BackoffStep(r0, j + k - 1);
    }
  }

  lemma NeverScaled(x: real)
    ensures Scaled(x, 1.5, 0) == x
  {}

  lemma {:induction false} ResendsAreCounted(pkts: seq<Unacked>, numbers: seq<nat>, now: nat, r0: real, i: nat)
    requires |numbers| == |pkts| && i <= |pkts|
    ensures |ResentNumbers(pkts, numbers, now, r0, i)| == Resends(pkts, now, r0, i)
  {
    hide IsResent;
    if i > 0 {
      ResendsAreCounted(pkts, numbers, now, r0, i - 1);
    }
  }

  lemma FlushBacksOff(cipher: Cipher, s: Sender, now: nat)
    requires |s.numbers| == |s.conn.rel.unacked|
    ensures var after := Flushed(cipher, s, now);
            && |s.resends| <= |after.resends|
            && after.conn.rel.rtt.rto == Backoff(s.conn.rel.rtt.rto, |after.resends| - |s.resends|)
  {
    var r := s.conn.rel;
    ResendsAreCounted(r.unacked, s.numbers, now, r.rtt.rto, |r.unacked|);
    hide ResentNumbers, AfterPass, Resends, Backoff, SequenceOf, NonceOf, NewlyUnacked, NewNumbers, NewlySent,
      NewNonces, NumberOf;
  }

  /** Until something is heard, the timeout is 100 ms lengthened by half for every resend so far, up to 2000 ms. */
  lemma {:induction false} TimeoutWhileNothingHeard(cipher: Cipher, isServer: bool, born: nat, events: seq<Event>)
    requires NothingHeard(events)
    ensures var s := After(cipher, isServer, born, events);
            s.conn.rel.rtt.rto == Min(2000.0, Scaled(100.0, 1.5, |s.resends|))
  {
    hide Step, Scaled, Sound, NoncesOk, Conserved;
    if events == [] {
      NeverScaled(100.0);
    } else {
      var before, e := events[..|events| - 1], events[|events| - 1];
      TimeoutWhileNothingHeard(cipher, isServer, born, before);
      RunKeepsAll(cipher, isServer, born, before);
      StepBacksOff(cipher, After(cipher, isServer, born, before), e);
    }
  }

  lemma StepBacksOff(cipher: Cipher, s: Sender, e: Event)
    requires Conserved(s) && !e.Arrive?
    requires s.conn.rel.rtt.rto == Min(2000.0, Scaled(100.0, 1.5, |s.resends|))
    ensures var after := Step(cipher, s, e);
            after.conn.rel.rtt.rto == Min(2000.0, Scaled(100.0, 1.5, |after.resends|))
  {
    hide Flushed, Scaled, Increasing, FramedAs;
    if e.Flush? {
      FlushBacksOff(cipher, s, e.now);
      BackoffAdds(100.0, |s.resends|, |Flushed(cipher, s, e.now).resends| - |s.resends|);
    }
  }

  // ---------- when the peer was last heard ----------

  /** The time of the last packet whose header reached the reliability layer. */
  function LastHeader(born: nat, events: seq<Event>): nat {
    if events == [] then born
    else
      var e := events[|events| - 1];
      if e.Arrive? && CarriesHeader(e.data) then e.now else LastHeader(born, events[..|events| - 1])
  }

  /** The time that `is_timed_out` compares with is that of the last header; a pending ack means something was new. */
  lemma {:induction false} LastReceivedIsLastHeader(cipher: Cipher, isServer: bool, born: nat, events: seq<Event>)
    ensures var r := After(cipher, isServer, born, events).conn.rel;
            r.lastReceived == LastHeader(born, events) && (r.pendingAck <==> r.window.bits != 0)
  {
    hide Step, CarriesHeader;
    if events != [] {
      var before, e := events[..|events| - 1], events[|events| - 1];
      LastReceivedIsLastHeader(cipher, isServer, born, before);
      StepHears(cipher, After(cipher, isServer, born, before), e);
    }
  }

  lemma StepHears(cipher: Cipher, s: Sender, e: Event)
    requires s.conn.rel.pendingAck <==> s.conn.rel.window.bits != 0
    ensures var r := Step(cipher, s, e).conn.rel;
            && r.lastReceived == (if e.Arrive? && CarriesHeader(e.data) then e.now else s.conn.rel.lastReceived)
            && (r.pendingAck <==> r.window.bits != 0)
  {
    hide NewNumbers, NewlySent, NewNonces, NumberOf, ResentNumbers, AfterPass, Resends, Backoff, SequenceOf, NonceOf,
      NewlyUnacked, Samples, SampledAll, Remaining, KeptNumbers, HeaderIn, CarriesHeader, Manager.Handled, Received,
      IsNew;
    if e.Arrive? {
      ArrivalHears(cipher, s.conn, e.data, e.now);
      if CarriesHeader(e.data) {
        WindowFillsExactly(s.conn.rel.window, HeaderIn(e.data).sequence);
      }
    }
  }

  /** An arrival leaves bits in the window exactly if it is new or there were some. */
  lemma WindowFillsExactly(w: Window, s: u16)
    ensures Received(w, s).bits != 0 <==> w.bits != 0 || IsNew(w, s)
  {
    hide MoreRecent, WrappingSub, Bit32, Shl32, Either32;
    var ahead, behind := WrappingSub(s, w.highest), WrappingSub(w.highest, s);
    EitherIsZero(Shl32(w.bits, ahead), 1);
    EitherIsZero(w.bits, Shl32(1, behind));
    OneIsNeverShiftedOut(behind);
  }

  lemma EitherIsZero(x: bv32, y: bv32)
    ensures Either32(x, y) == 0 <==> x == 0 && y == 0
  {}

  lemma OneIsNeverShiftedOut(d: nat)
    ensures Shl32(1, d) != 0
  {
    OneAtIsNotZero(Amount5(d));
  }

  lemma OneAtIsNotZero(a: bv5)
    ensures ShlAt32(1, a) != 0
  {}
}
