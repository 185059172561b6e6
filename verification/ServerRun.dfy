/** The server loop over whole runs that start from wire packets. */
module ServerRun {
  import opened Numbers
  import opened Pipeline
  import opened Connection
  import opened Manager
  import opened World
  import opened ServerLoop
  import T = ServerTrace

  /** What one turn of the loop finds: the packets of its poll and the time. */
  datatype Round = Round(packets: seq<FromWire>, now: nat)

  /** The connections, when they were last heard of, and the turns of the session loop so far. */
  datatype History = History(all: map<Addr, ConnState>, seen: map<Addr, nat>, turns: seq<S.Turn>)

  function PolledIn(cipher: Cipher, h: History, r: Round): Polled {
    AfterPoll(cipher, Polled(h.all, h.seen, []), r.packets, r.now)
  }

  /** The connections that are flushed at the end of the last of `turns`. */
  ghost function LastFlushed(polled: Polled, turns: seq<S.Turn>, hash: WorldState -> nat, now: nat, timeout: nat):
      map<Addr, ConnState>
    requires turns != []
  {
    if !InRange(T.WorldAt(turns)) then map[]
    else ToFlush(polled, T.PlayedIn(turns), |turns|, T.WorldAt(turns), hash, now, timeout)
  }

  ghost function Continued(cipher: Cipher, h: History, r: Round, hash: WorldState -> nat, timeout: nat): History {
    var polled := PolledIn(cipher, h, r);
    var turns := h.turns + [TurnOf(polled, r.now, timeout)];
    var last := LastFlushed(polled, turns, hash, r.now, timeout);
    History(map a | a in last :: Updated(cipher, last[a], r.now), SeenAfter(polled, r.now, timeout), turns)
  }

  /** All that happens in `rounds`, from a server without connections. */
  ghost function HistoryOf(cipher: Cipher, rounds: seq<Round>, hash: WorldState -> nat, timeout: nat): (h: History)
    ensures |h.turns| == |rounds|
  {
    if rounds == [] then History(map[], map[], [])
    else
      var last := |rounds| - 1;
      Continued(cipher, HistoryOf(cipher, rounds[..last], hash, timeout), rounds[last], hash, timeout)
  }

  /** The world has one position, at most 10 mm for every turn along the first axis. */
  lemma {:induction false} WorldStaysNear(turns: seq<S.Turn>)
    ensures var w := T.WorldAt(turns);
            |w.positions| == 1 && w.positions[0].y == 0 == w.positions[0].z && 0 <= w.positions[0].x <= 10 * |turns|
  {
    hide T.PlayedIn, S.OrOf, S.Held, Moves;
    if turns != [] {
      WorldStaysNear(turns[..|turns| - 1]);
    }
  }

  lemma RoomForAnother(turns: seq<S.Turn>)
    requires 10 * |turns| + 10 < 0x8000_0000
    ensures RoomToMove(T.WorldAt(turns)) && InRange(T.WorldAt(turns))
  {
    hide T.WorldAt;
    WorldStaysNear(turns);
    RoomNear(T.WorldAt(turns), 10 * |turns|);
  }

  lemma RoomNear(w: WorldState, far: nat)
    requires |w.positions| == 1 && w.positions[0].y == 0 == w.positions[0].z && 0 <= w.positions[0].x <= far
    requires far + 10 < 0x8000_0000
    ensures RoomToMove(w) && InRange(w)
  {}

  /** Server, manager and interpolator are where `h` says. */
  ghost predicate Reached(server: S.GameServer, manager: ConnectionManager, h: History)
    reads server, manager, manager.Footprint()
  {
    && manager.Valid() && AllSendable(manager.View())
    && manager.View() == h.all && manager.Seen() == h.seen
    && server.currentTick == |h.turns|
    && server.Value() == S.ServerState(T.Sessions(h.turns), T.WorldAt(h.turns))
  }

  lemma FlushedIsSendable(cipher: Cipher, all: map<Addr, ConnState>, now: nat)
    ensures AllSendable(map a | a in all :: Updated(cipher, all[a], now))
  {
    hide NewlyUnacked, SequenceOf, NonceOf;
  }

  /** One more turn of the session loop, in the terms of the trace. */
  lemma TurnContinues(turns: seq<S.Turn>, turn: S.Turn)
    ensures var more := turns + [turn];
            && S.ServerState(T.Sessions(more), T.WorldAt(more)) ==
               S.Turned(S.ServerState(T.Sessions(turns), T.WorldAt(turns)), turn, |turns| + 1)
            && T.PlayedIn(more) ==
               S.PlayedAll(S.Filled(T.Sessions(turns), turn.arrivals, turn.active), |turns| + 1)
  {
    var more := turns + [turn];
    assert more[..|more| - 1] == turns;
    T.LoopGoesThrough(more);
  }

  /** What the round hands to the socket when the connections are flushed in this order. */
  ghost predicate IsEmission(cipher: Cipher, h: History, r: Round, hash: WorldState -> nat, timeout: nat,
                             out: seq<Datagram>, order: seq<Addr>)
  {
    var polled := PolledIn(cipher, h, r);
    var last := LastFlushed(polled, h.turns + [TurnOf(polled, r.now, timeout)], hash, r.now, timeout);
    Distinct(order) && Elements(order) == last.Keys && out == Manager.Flushed(cipher, last, order, r.now)
  }

  method RunRound(server: S.GameServer, manager: ConnectionManager, interpolator: I.Interpolator<WorldState>,
                  hash: WorldState -> nat, round: Round, timeout: nat, ghost h: History)
      returns (out: seq<Datagram>, ghost order: seq<Addr>)
    requires Reached(server, manager, h) && interpolator.Valid() && 10 * |h.turns| + 20 < 0x8000_0000
    modifies server, interpolator, manager`connections, manager.Footprint()
    ensures Reached(server, manager, Continued(manager.cipher, h, round, hash, timeout)) && interpolator.Valid()
    ensures fresh(manager.Footprint() - old(manager.Footprint()))
    ensures IsEmission(manager.cipher, h, round, hash, timeout, out, order)
  {
    hide ConnectionManager.Valid, ConnectionManager.Seen, ConnectionManager.View, ConnectionManager.Footprint, Updated,
      AllSendable, AfterPoll, InRange, RoomToMove, ToFlush, TurnOf, SeenAfter, S.Turned, S.PlayedAll, S.Filled,
      T.Sessions, T.WorldAt, T.PlayedIn, Distinct, Elements, Manager.Flushed;
    ghost var polled := PolledIn(manager.cipher, h, round);
    ghost var turn := TurnOf(polled, round.now, timeout);
    RoomForAnother(h.turns);
    RoomForAnother(h.turns + [turn]);
    TurnContinues(h.turns, turn);
    assert turn.arrivals == polled.arrivals && turn.active == polled.all.Keys by {
      TurnParts(polled, round.now, timeout);
    }
    out, order := RunTurn(server, manager, interpolator, hash, round.packets, round.now, timeout);
    assert manager.View() == Continued(manager.cipher, h, round, hash, timeout).all;
    FlushedIsSendable(manager.cipher, LastFlushed(polled, h.turns + [turn], hash, round.now, timeout), round.now);
  }

  lemma TurnParts(polled: Polled, now: nat, timeout: nat)
    ensures TurnOf(polled, now, timeout).arrivals == polled.arrivals
    ensures TurnOf(polled, now, timeout).active == polled.all.Keys
  {}

  lemma NothingHappened(cipher: Cipher, hash: WorldState -> nat, timeout: nat)
    ensures HistoryOf(cipher, [], hash, timeout) == History(map[], map[], [])
    ensures S.ServerState(map[], ORIGIN) == S.ServerState(T.Sessions([]), T.WorldAt([]))
  {}

  method Begin(cipher: Cipher) returns (server: S.GameServer, manager: ConnectionManager)
    ensures fresh(server) && fresh(manager) && manager.Footprint() == {} && manager.cipher == cipher
    ensures Reached(server, manager, History(map[], map[], []))
  {
    server := new S.GameServer();
    manager := new ConnectionManager(cipher);
  }

  /** Every round so far has emitted what the connections had to say at its end, in some order of the peers. */
  ghost predicate AllEmitted(cipher: Cipher, rounds: seq<Round>, hash: WorldState -> nat, timeout: nat,
                             outs: seq<seq<Datagram>>)
  {
    |outs| <= |rounds|
    && forall k :: 0 <= k < |outs| ==> EmittedIn(cipher, HistoryOf(cipher, rounds[..k], hash, timeout), rounds[k], hash,
                                                 timeout, outs[k])
  }

  ghost predicate EmittedIn(cipher: Cipher, h: History, r: Round, hash: WorldState -> nat, timeout: nat,
                            out: seq<Datagram>)
  {
    exists order :: IsEmission(cipher, h, r, hash, timeout, out, order)
  }

  lemma NothingEmitted(cipher: Cipher, rounds: seq<Round>, hash: WorldState -> nat, timeout: nat)
    ensures AllEmitted(cipher, rounds, hash, timeout, []) && rounds[..0] == []
  {}

  lemma AllEmittedOneMore(cipher: Cipher, rounds: seq<Round>, hash: WorldState -> nat, timeout: nat,
                          outs: seq<seq<Datagram>>, out: seq<Datagram>)
    requires AllEmitted(cipher, rounds, hash, timeout, outs) && |outs| < |rounds|
    requires EmittedIn(cipher, HistoryOf(cipher, rounds[..|outs|], hash, timeout), rounds[|outs|], hash, timeout, out)
    ensures AllEmitted(cipher, rounds, hash, timeout, outs + [out])
  {
    hide EmittedIn, HistoryOf;
  }

  /** One more round of a run that has reached `h`. */
  method RunNext(server: S.GameServer, manager: ConnectionManager, interpolator: I.Interpolator<WorldState>,
                 hash: WorldState -> nat, round: Round, timeout: nat, ghost h: History)
      returns (out: seq<Datagram>)
    requires Reached(server, manager, h) && interpolator.Valid() && 10 * |h.turns| + 20 < 0x8000_0000
    modifies server, interpolator, manager`connections, manager.Footprint()
    ensures Reached(server, manager, Continued(manager.cipher, h, round, hash, timeout)) && interpolator.Valid()
    ensures fresh(manager.Footprint() - old(manager.Footprint()))
    ensures EmittedIn(manager.cipher, h, round, hash, timeout, out)
  {
    hide Continued, IsEmission, Reached, ConnectionManager.Footprint;
    ghost var order;
    out, order := RunRound(server, manager, interpolator, hash, round, timeout, h);
  }

  /** The loop, for a server that has just begun. */
  method RunRounds(server: S.GameServer, manager: ConnectionManager, interpolator: I.Interpolator<WorldState>,
                   rounds: seq<Round>, hash: WorldState -> nat, timeout: nat)
      returns (outs: seq<seq<Datagram>>)
    requires Reached(server, manager, HistoryOf(manager.cipher, [], hash, timeout)) && interpolator.Valid()
    requires manager.Footprint() == {} && 10 * |rounds| + 20 < 0x8000_0000
    modifies server, interpolator, manager`connections
    ensures Reached(server, manager, HistoryOf(manager.cipher, rounds, hash, timeout))
    ensures |outs| == |rounds| && AllEmitted(manager.cipher, rounds, hash, timeout, outs)
  {
    hide Continued, HistoryOf, Reached, EmittedIn, AllEmitted, I.Interpolator.Valid, ConnectionManager.Footprint;
    outs := [];
    NothingEmitted(manager.cipher, rounds, hash, timeout);
    for i := 0 to |rounds|
      invariant interpolator.Valid() && |outs| == i
      invariant fresh(manager.Footprint())
      invariant Reached(server, manager, HistoryOf(manager.cipher, rounds[..i], hash, timeout))
      invariant AllEmitted(manager.cipher, rounds, hash, timeout, outs)
    {
      ghost var h, footprint := HistoryOf(manager.cipher, rounds[..i], hash, timeout), manager.Footprint();
      OneMoreRound(manager.cipher, rounds, i, hash, timeout);
      label Before:
      var out := RunNext(server, manager, interpolator, hash, rounds[i], timeout, h);
      forall o | o in manager.Footprint() && o !in footprint
        ensures fresh(o)
      {
        assert o in manager.Footprint() - footprint;
        assert fresh@Before(o);
      }
      AllEmittedOneMore(manager.cipher, rounds, hash, timeout, outs, out);
      outs := outs + [out];
    }
    assert rounds[..|rounds|] == rounds;
  }

  /**
    The loop over all of `rounds`: from wire packets alone, sessions and world end where the trace of
    the turns those packets amount to ends, and the connections where the flushes have left them.
   */
  method RunLoop(cipher: Cipher, rounds: seq<Round>, hash: WorldState -> nat, timeout: nat)
      returns (server: S.GameServer, manager: ConnectionManager, outs: seq<seq<Datagram>>)
    requires 10 * |rounds| + 20 < 0x8000_0000
    ensures Reached(server, manager, HistoryOf(cipher, rounds, hash, timeout))
    ensures |outs| == |rounds| && AllEmitted(cipher, rounds, hash, timeout, outs)
  {
    server, manager := Begin(cipher);
    var interpolator := new I.Interpolator<WorldState>(128);
    NothingHappened(cipher, hash, timeout);
    hide HistoryOf, Reached, AllEmitted, ConnectionManager.Footprint;
    outs := RunRounds(server, manager, interpolator, rounds, hash, timeout);
  }

  lemma OneMoreRound(cipher: Cipher, rounds: seq<Round>, i: nat, hash: WorldState -> nat, timeout: nat)
    requires i < |rounds|
    ensures HistoryOf(cipher, rounds[..i + 1], hash, timeout) ==
            Continued(cipher, HistoryOf(cipher, rounds[..i], hash, timeout), rounds[i], hash, timeout)
  {
    hide Continued;
    assert rounds[..i + 1][..i] == rounds[..i];
  }
}
