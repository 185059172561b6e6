/**
  The way of one input from the client's queue to the world: framed and sealed, polled by the
  server, filed under its tick in the session of its sender, and applied at that tick.
 */
module InputPath {
  import opened Numbers
  import opened Pipeline
  import opened Connection
  import opened Manager
  import opened RoundTrip
  import opened World
  import opened ServerLoop
  import opened ServerRun
  import opened ServerPeers
  import Client

  /** `wire` is the frame of `input`, queued as an unreliable send of a connection with key `key`. */
  ghost predicate Frames(cipher: Cipher, wire: Bytes, key: Key, input: Input) {
    exists c: ConnState, i: nat ::
      && i < |c.queue| && c.key == key && c.queue[i] == PendingSend(InputPacket(input), false)
      && NonceOf(c, i) < 0x1_0000_0000_0000_0000 && WireOf(cipher, c, i) == Some(wire)
  }

  predicate Fits(input: Input) {
    input.tick < 0x1_0000_0000_0000_0000 && input.mask < 0x1_0000_0000
  }

  function FiledAs(addr: Addr, input: Input): S.Arrival {
    S.Arrival(addr, S.Entry(input.tick, InputMask(input.mask)))
  }

  // ---------- the poll ----------

  /** A framed input of a peer with the same key is one arrival more, of that peer, tick and mask. */
  lemma InputIsFiled(cipher: Cipher, before: Polled, p: FromWire, now: nat, input: Input)
    requires Inverts(cipher) && Fits(input)
    requires p.addr in before.all && Frames(cipher, p.data, before.all[p.addr].key, input)
    ensures PolledOne(cipher, before, p, now).arrivals == before.arrivals + [FiledAs(p.addr, input)]
  {
    var peer := before.all[p.addr];
    var c: ConnState, i: nat :|
      && i < |c.queue| && c.key == peer.key && c.queue[i] == PendingSend(InputPacket(input), false)
      && NonceOf(c, i) < 0x1_0000_0000_0000_0000 && WireOf(cipher, c, i) == Some(p.data);
    hide Inverts, Handled, WireOf, NonceOf, InputPacket, ParseInput;
    InputCrossesTheWire(cipher, c, i, peer, now, input);
  }

  /** Where a poll stands before its packet `q`. */
  function BeforePacket(cipher: Cipher, start: Polled, packets: seq<FromWire>, now: nat, q: nat): Polled
    requires q <= |packets|
  {
    AfterPoll(cipher, start, packets[..q], now)
  }

  lemma {:induction false} ArrivalsGrow(cipher: Cipher, start: Polled, packets: seq<FromWire>, now: nat, q: nat)
    requires q <= |packets|
    ensures BeforePacket(cipher, start, packets, now, q).arrivals <= AfterPoll(cipher, start, packets, now).arrivals
    decreases |packets|
  {
    hide PolledOne;
    if q == |packets| {
      assert packets[..q] == packets;
    } else {
      var last := |packets| - 1;
      assert packets[..last][..q] == packets[..q];
      ArrivalsGrow(cipher, start, packets[..last], now, q);
      OnePacketAppends(cipher, AfterPoll(cipher, start, packets[..last], now), packets[last], now);
    }
  }

  lemma OnePacketAppends(cipher: Cipher, before: Polled, p: FromWire, now: nat)
    ensures before.arrivals <= PolledOne(cipher, before, p, now).arrivals
  {
    hide InputOf, Routed;
  }

  /** In any poll an input framed under the key its sender has by then is among the arrivals, where it came. */
  lemma PolledInputIsFiled(cipher: Cipher, start: Polled, packets: seq<FromWire>, now: nat, q: nat, input: Input)
    requires Inverts(cipher) && Fits(input) && q < |packets|
    requires var before := BeforePacket(cipher, start, packets, now, q);
             && packets[q].addr in before.all
             && Frames(cipher, packets[q].data, before.all[packets[q].addr].key, input)
    ensures var at := |BeforePacket(cipher, start, packets, now, q).arrivals|;
            var arrivals := AfterPoll(cipher, start, packets, now).arrivals;
            at < |arrivals| && arrivals[at] == FiledAs(packets[q].addr, input)
  {
    hide PolledOne, Frames, Inverts;
    var before := BeforePacket(cipher, start, packets, now, q);
    InputIsFiled(cipher, before, packets[q], now, input);
    assert packets[..q + 1][..q] == packets[..q];
    assert AfterPoll(cipher, start, packets[..q + 1], now) == PolledOne(cipher, before, packets[q], now);
    ArrivalsGrow(cipher, start, packets, now, q + 1);
  }

  // ---------- the session ----------

  /** Does no arrival behind position `at` bring `a` another input for tick `t`? */
  predicate LastWord(arrivals: seq<S.Arrival>, at: nat, a: Addr, t: nat) {
    forall j :: at < j < |arrivals| ==> !(arrivals[j].addr == a && arrivals[j].entry.tick == t)
  }

  lemma {:induction false} LastArrivalDecides(arrivals: seq<S.Arrival>, at: nat, input: Input, a: Addr)
    requires at < |arrivals| && arrivals[at] == FiledAs(a, input) && LastWord(arrivals, at, a, input.tick)
    ensures T.LastFor(S.EntriesOf(arrivals, a), input.tick) == Some(InputMask(input.mask))
    decreases |arrivals|
  {
    if at < |arrivals| - 1 {
      LastArrivalDecides(arrivals[..|arrivals| - 1], at, input, a);
    }
  }

  lemma {:induction false} NoArrivalDecidesNothing(arrivals: seq<S.Arrival>, a: Addr, t: nat)
    requires forall j :: 0 <= j < |arrivals| ==> !(arrivals[j].addr == a && arrivals[j].entry.tick == t)
    ensures T.LastFor(S.EntriesOf(arrivals, a), t).None?
  {
    if arrivals != [] {
      NoArrivalDecidesNothing(arrivals[..|arrivals| - 1], a, t);
    }
  }

  // ---------- the run ----------

  ghost function ArrivalsOf(cipher: Cipher, rounds: seq<Round>, hash: WorldState -> nat, timeout: nat, k: nat):
      seq<S.Arrival>
    requires k < |rounds|
  {
    PolledIn(cipher, HistoryOf(cipher, rounds[..k], hash, timeout), rounds[k]).arrivals
  }

  lemma {:induction false} TurnsBringArrivals(cipher: Cipher, rounds: seq<Round>, hash: WorldState -> nat, timeout: nat,
                                              k: nat)
    requires k < |rounds|
    ensures var turns := HistoryOf(cipher, rounds, hash, timeout).turns;
            && turns[k].arrivals == ArrivalsOf(cipher, rounds, hash, timeout, k)
            && turns[..k] == HistoryOf(cipher, rounds[..k], hash, timeout).turns
    decreases |rounds|
  {
    hide PolledIn, TurnOf, LastFlushed, SeenAfter, Updated;
    var last := |rounds| - 1;
    TurnsOneMore(cipher, rounds, hash, timeout);
    if k < last {
      assert rounds[..last][..k] == rounds[..k];
      TurnsBringArrivals(cipher, rounds[..last], hash, timeout, k);
    } else {
      TurnParts(PolledIn(cipher, HistoryOf(cipher, rounds[..last], hash, timeout), rounds[last]), rounds[last].now,
                timeout);
    }
  }

  lemma TurnsOneMore(cipher: Cipher, rounds: seq<Round>, hash: WorldState -> nat, timeout: nat)
    requires rounds != []
    ensures var last := |rounds| - 1;
            var h := HistoryOf(cipher, rounds[..last], hash, timeout);
            HistoryOf(cipher, rounds, hash, timeout).turns ==
            h.turns + [TurnOf(PolledIn(cipher, h, rounds[last]), rounds[last].now, timeout)]
  {
    hide PolledIn, TurnOf, LastFlushed, SeenAfter, Updated;
  }

  /** Packet `q` of round `k` is a framed input of `a`, under the key `a` has by then. */
  ghost predicate Comes(cipher: Cipher, rounds: seq<Round>, hash: WorldState -> nat, timeout: nat, k: nat, q: nat,
                        a: Addr, input: Input)
  {
    && k < |rounds| && q < |rounds[k].packets| && rounds[k].packets[q].addr == a
    && var h := HistoryOf(cipher, rounds[..k], hash, timeout);
       var before := BeforePacket(cipher, Polled(h.all, h.seen, []), rounds[k].packets, rounds[k].now, q);
       a in before.all && Frames(cipher, rounds[k].packets[q].data, before.all[a].key, input)
  }

  /** How many inputs round `k` has found before its packet `q`. */
  ghost function Position(cipher: Cipher, rounds: seq<Round>, hash: WorldState -> nat, timeout: nat, k: nat,
                          q: nat): nat
    requires k < |rounds| && q <= |rounds[k].packets|
  {
    var h := HistoryOf(cipher, rounds[..k], hash, timeout);
    |BeforePacket(cipher, Polled(h.all, h.seen, []), rounds[k].packets, rounds[k].now, q).arrivals|
  }

  /** Nothing that comes after it replaces the input, up to the end of the run. */
  ghost predicate Stands(cipher: Cipher, rounds: seq<Round>, hash: WorldState -> nat, timeout: nat, k: nat, q: nat,
                         a: Addr, t: nat)
    requires k < |rounds| && q <= |rounds[k].packets|
  {
    && LastWord(ArrivalsOf(cipher, rounds, hash, timeout, k), Position(cipher, rounds, hash, timeout, k, q), a, t)
    && forall m, j :: k < m < |rounds| && 0 <= j < |ArrivalsOf(cipher, rounds, hash, timeout, m)| ==>
         var x := ArrivalsOf(cipher, rounds, hash, timeout, m)[j]; !(x.addr == a && x.entry.tick == t)
  }

  /** The peer stays connected from round `k` to the last. */
  ghost predicate StaysConnected(cipher: Cipher, rounds: seq<Round>, hash: WorldState -> nat, timeout: nat, k: nat,
                                 a: Addr)
  {
    forall m :: k < m < |rounds| ==> a in HistoryOf(cipher, rounds[..m], hash, timeout).all
  }

  lemma InputDecides(cipher: Cipher, rounds: seq<Round>, hash: WorldState -> nat, timeout: nat, k: nat, q: nat, a: Addr,
                     input: Input)
    requires Inverts(cipher) && Fits(input) && Comes(cipher, rounds, hash, timeout, k, q, a, input)
    requires Stands(cipher, rounds, hash, timeout, k, q, a, input.tick)
    ensures T.Decides(HistoryOf(cipher, rounds, hash, timeout).turns, a, k, |rounds|, input.tick, InputMask(input.mask))
  {
    hide HistoryOf, Frames, Inverts, AfterPoll;
    var h := HistoryOf(cipher, rounds[..k], hash, timeout);
    PolledInputIsFiled(cipher, Polled(h.all, h.seen, []), rounds[k].packets, rounds[k].now, q, input);
    hide BeforePacket, Comes;
    TurnsBringArrivals(cipher, rounds, hash, timeout, k);
    LastArrivalDecides(ArrivalsOf(cipher, rounds, hash, timeout, k), Position(cipher, rounds, hash, timeout, k, q),
                       input, a);
    hide Position, LastWord, S.EntriesOf, T.LastFor;
    forall m | k < m < |rounds|
      ensures T.LastFor(S.EntriesOf(HistoryOf(cipher, rounds, hash, timeout).turns[m].arrivals, a), input.tick).None?
    {
      TurnsBringArrivals(cipher, rounds, hash, timeout, m);
      NoArrivalDecidesNothing(ArrivalsOf(cipher, rounds, hash, timeout, m), a, input.tick);
    }
  }

  lemma SessionLivesOn(cipher: Cipher, rounds: seq<Round>, hash: WorldState -> nat, timeout: nat, k: nat, a: Addr)
    requires StaysConnected(cipher, rounds, hash, timeout, k, a) && 10 * |rounds| + 20 < 0x8000_0000
    ensures T.LivesOn(HistoryOf(cipher, rounds, hash, timeout).turns, a, k, |rounds|)
  {
    hide HistoryOf, T.Sessions;
    forall m | k < m < |rounds|
      ensures a in T.Sessions(HistoryOf(cipher, rounds, hash, timeout).turns[..m])
    {
      TurnsBringArrivals(cipher, rounds, hash, timeout, m);
      SessionsAreConnections(cipher, rounds[..m], hash, timeout);
    }
  }

  /**
    From the wire to the world: an input that a connected peer framed, that arrives no later than its
    tick and is not replaced by another, moves the world at that tick if it is a moving one.
   */
  lemma InputMovesWorld(cipher: Cipher, rounds: seq<Round>, hash: WorldState -> nat, timeout: nat, k: nat, q: nat,
                        a: Addr, input: Input)
    requires Inverts(cipher) && Fits(input) && 10 * |rounds| + 20 < 0x8000_0000 && |rounds| == input.tick
    requires Comes(cipher, rounds, hash, timeout, k, q, a, input)
    requires Stands(cipher, rounds, hash, timeout, k, q, a, input.tick)
    requires StaysConnected(cipher, rounds, hash, timeout, k, a) && input.mask % 2 == 1
    ensures var before := HistoryOf(cipher, rounds[..|rounds| - 1], hash, timeout);
            var after := HistoryOf(cipher, rounds, hash, timeout);
            T.WorldAt(after.turns) == T.Shifted(T.WorldAt(before.turns), 10)
  {
    hide Inverts, Stands, Comes, StaysConnected, HistoryOf, T.Decides, T.LivesOn, T.WorldAt, Moves;
    InputDecides(cipher, rounds, hash, timeout, k, q, a, input);
    SessionLivesOn(cipher, rounds, hash, timeout, k, a);
    OddInputsMove(ORIGIN, InputMask(input.mask));
    T.DecidedMovesWorld(HistoryOf(cipher, rounds, hash, timeout).turns, a, k, InputMask(input.mask));
    TurnsBringArrivals(cipher, rounds, hash, timeout, |rounds| - 1);
  }

  /** Until its tick comes, it waits in the session of its sender under that tick. */
  lemma InputWaitsInBuffer(cipher: Cipher, rounds: seq<Round>, hash: WorldState -> nat, timeout: nat, k: nat, q: nat,
                           a: Addr, input: Input)
    requires Inverts(cipher) && Fits(input) && 10 * |rounds| + 20 < 0x8000_0000 && |rounds| < input.tick
    requires Comes(cipher, rounds, hash, timeout, k, q, a, input)
    requires Stands(cipher, rounds, hash, timeout, k, q, a, input.tick)
    requires StaysConnected(cipher, rounds, hash, timeout, k, a) && a in HistoryOf(cipher, rounds, hash, timeout).all
    ensures var sessions := T.Sessions(HistoryOf(cipher, rounds, hash, timeout).turns);
            && a in sessions && input.tick in sessions[a].buffer
            && sessions[a].buffer[input.tick] == InputMask(input.mask)
  {
    hide Inverts, Stands, Comes, StaysConnected, HistoryOf, T.Decides, T.LivesOn, T.Sessions;
    InputDecides(cipher, rounds, hash, timeout, k, q, a, input);
    SessionLivesOn(cipher, rounds, hash, timeout, k, a);
    SessionsAreConnections(cipher, rounds, hash, timeout);
    T.DecidedIsBuffered(HistoryOf(cipher, rounds, hash, timeout).turns, a, k, input.tick, InputMask(input.mask));
  }

  /** What the client's controller queues for a tick is such an input, and a moving one. */
  lemma ControllerQueuesInput(tick: nat)
    ensures Client.ForwardPacket(tick) == InputPacket(Input(tick, 1))
  {}
}
