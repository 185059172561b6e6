/**
  One whole turn of the server: wire packets go through the manager into the sessions, the world
  steps, every connected session is sent a snapshot, stale connections are dropped and all
  connections are flushed.
 */
module ServerLoop {
  import opened Numbers
  import opened Protocol
  import opened Packet
  import opened Pipeline
  import opened Connection
  import opened Manager
  import opened RoundTrip
  import opened World
  import S = Server
  import I = Interpolation

  /** A wire packet and its sender; `key` is the session key made up if the sender is unknown. */
  datatype FromWire = FromWire(addr: Addr, data: Bytes, key: Key)

  // ---------- the poll ----------

  /** The input in what the manager hands to the application, if it is one. */
  function InputOf(addr: Addr, data: Option<Bytes>): seq<S.Arrival> {
    if data.None? || ParseInput(data.value).None? then []
    else
      var input := ParseInput(data.value).value;
      [S.Arrival(addr, S.Entry(input.tick, InputMask(input.mask)))]
  }

  /** The connections and when they were last heard of, and the inputs, after a list of packets. */
  datatype Polled = Polled(all: map<Addr, ConnState>, seen: map<Addr, nat>, arrivals: seq<S.Arrival>)

  function PolledOne(cipher: Cipher, before: Polled, p: FromWire, now: nat): Polled {
    var (all, d) := Routed(cipher, before.all, p.addr, p.data, now, p.key);
    Polled(all, if d.Disconnected? then before.seen - {p.addr} else before.seen[p.addr := now],
           before.arrivals + InputOf(p.addr, Returned(d)))
  }

  function AfterPoll(cipher: Cipher, start: Polled, packets: seq<FromWire>, now: nat): Polled {
    if packets == [] then start
    else PolledOne(cipher, AfterPoll(cipher, start, packets[..|packets| - 1], now), packets[|packets| - 1], now)
  }

  /** Every unreliable send that is queued has its type byte. */
  predicate AllSendable(all: map<Addr, ConnState>) {
    forall a | a in all :: Sendable(all[a].queue)
  }

  lemma RoutedKeepsSendable(cipher: Cipher, all: map<Addr, ConnState>, p: FromWire, now: nat)
    requires AllSendable(all)
    ensures AllSendable(Routed(cipher, all, p.addr, p.data, now, p.key).0)
  {
    var c := if p.addr in all then all[p.addr] else Opened(now, p.key);
    assert Sendable(c.queue);
    assert Handled(cipher, c, p.data, now).0.queue == c.queue by {
      hide Incoming, DecodeHeader, HandshakeShaped, SessionKey, Opened;
    }
    hide Handled, Sendable, Opened;
  }

  method PollOne(manager: ConnectionManager, p: FromWire, now: nat) returns (arrivals: seq<S.Arrival>)
    requires manager.Valid() && AllSendable(manager.View())
    modifies manager`connections, manager.Footprint()
    ensures manager.Valid() && AllSendable(manager.View())
    ensures fresh(manager.Footprint() - old(manager.Footprint()))
    ensures forall before: seq<S.Arrival> ::
              Polled(manager.View(), manager.Seen(), before + arrivals) ==
              PolledOne(manager.cipher, Polled(old(manager.View()), old(manager.Seen()), before), p, now)
  {
    hide ConnectionManager.View, ConnectionManager.Seen, ConnectionManager.Valid, ConnectionManager.Footprint, Routed,
      AllSendable, ParseInput;
    RoutedKeepsSendable(manager.cipher, manager.View(), p, now);
    var data := manager.HandlePacket(p.addr, p.data, now, p.key);
    arrivals := [];
    if data.Some? {
      var input := ParseInput(data.value);
      if input.Some? {
        arrivals := [S.Arrival(p.addr, S.Entry(input.value.tick, InputMask(input.value.mask)))];
      }
    }
  }

  method Poll(manager: ConnectionManager, packets: seq<FromWire>, now: nat) returns (arrivals: seq<S.Arrival>)
    requires manager.Valid() && AllSendable(manager.View())
    modifies manager`connections, manager.Footprint()
    ensures manager.Valid() && AllSendable(manager.View())
    ensures fresh(manager.Footprint() - old(manager.Footprint()))
    ensures Polled(manager.View(), manager.Seen(), arrivals) ==
            AfterPoll(manager.cipher, Polled(old(manager.View()), old(manager.Seen()), []), packets, now)
  {
    hide ConnectionManager.View, ConnectionManager.Seen, ConnectionManager.Valid, ConnectionManager.Footprint,
      AllSendable, PolledOne;
    arrivals := [];
    ghost var made: set<object> := {};
    ghost var start := Polled(manager.View(), manager.Seen(), []);
    for i := 0 to |packets|
      invariant manager.Valid() && AllSendable(manager.View())
      invariant fresh(made)
      invariant manager.Footprint() <= old(manager.Footprint()) + made
      invariant Polled(manager.View(), manager.Seen(), arrivals) ==
                AfterPoll(manager.cipher, start, packets[..i], now)
    {
      assert packets[..i + 1][..i] == packets[..i];
      ghost var footprint := manager.Footprint();
      label Before:
      var more := PollOne(manager, packets[i], now);
      ghost var newer := manager.Footprint() - footprint;
      forall o | o in newer
        ensures fresh(o)
      {
        assert fresh@Before(o);
      }
      assert fresh(newer);
      made := made + newer;
      arrivals := arrivals + more;
    }
    assert packets[..|packets|] == packets;
  }

  // ---------- the broadcast ----------

  predicate InRange(w: WorldState) {
    forall i :: 0 <= i < |w.positions| ==> InI32(w.positions[i])
  }

  /** The snapshot one session is sent. */
  function SnapshotFor(session: S.Session, tick: nat, world: WorldState, hash: WorldState -> nat): Bytes
    requires InRange(world)
  {
    SnapshotPacket(SnapshotHeader(tick, hash(world), session.latestTick), world.positions)
  }

  function WithSnapshot(c: ConnState, session: S.Session, tick: nat, world: WorldState, hash: WorldState -> nat):
      ConnState
    requires InRange(world)
  {
    Queued(c, SnapshotFor(session, tick, world, hash), false)
  }

  /** All connections after the broadcast: those with a session have their snapshot queued. */
  function Broadcasted(all: map<Addr, ConnState>, sessions: map<Addr, S.Session>, tick: nat, world: WorldState,
                       hash: WorldState -> nat): map<Addr, ConnState>
    requires InRange(world)
  {
    map a | a in all :: if a in sessions then WithSnapshot(all[a], sessions[a], tick, world, hash) else all[a]
  }

  lemma SnapshotKeepsSendable(c: ConnState, session: S.Session, tick: nat, world: WorldState, hash: WorldState -> nat)
    requires InRange(world) && Sendable(c.queue)
    ensures Sendable(WithSnapshot(c, session, tick, world, hash).queue)
  {
    hide SnapshotBytes, PositionsBytes;
  }

  /** A session whose connection is gone is sent nothing. */
  method SendSnapshot(manager: ConnectionManager, addr: Addr, session: S.Session, tick: nat, world: WorldState,
                      hash: WorldState -> nat, now: nat)
    requires manager.Valid() && InRange(world)
    modifies manager`connections, manager.Footprint()
    ensures manager.Valid() && manager.Seen() == old(manager.Seen())
    ensures fresh(manager.Footprint() - old(manager.Footprint()))
    ensures var before := old(manager.View());
            manager.View() ==
            if addr in before then before[addr := WithSnapshot(before[addr], session, tick, world, hash)] else before
  {
    assert addr in manager.connections <==> addr in manager.View();
    hide ConnectionManager.View, ConnectionManager.Seen, ConnectionManager.Valid, ConnectionManager.Footprint,
      SnapshotPacket, Queued;
    if addr in manager.connections {
      manager.SendToClient(addr, SnapshotFor(session, tick, world, hash), false, true, now);
    }
  }

  method Broadcast(manager: ConnectionManager, sessions: map<Addr, S.Session>, tick: nat, world: WorldState,
                   hash: WorldState -> nat, now: nat)
    requires manager.Valid() && InRange(world)
    modifies manager`connections, manager.Footprint()
    ensures manager.Valid() && manager.Seen() == old(manager.Seen())
    ensures fresh(manager.Footprint() - old(manager.Footprint()))
    ensures manager.View() == Broadcasted(old(manager.View()), sessions, tick, world, hash)
  {
    hide ConnectionManager.View, ConnectionManager.Seen, ConnectionManager.Valid, ConnectionManager.Footprint,
      WithSnapshot, InRange;
    ghost var made: set<object> := {};
    ghost var before := manager.View();
    var todo := sessions.Keys;
    while todo != {}
      invariant todo <= sessions.Keys
      invariant manager.Valid() && manager.Seen() == old(manager.Seen())
      invariant fresh(made)
      invariant manager.Footprint() <= old(manager.Footprint()) + made
      invariant manager.View().Keys == before.Keys
      invariant forall a | a in before :: manager.View()[a] ==
                  if a in sessions && a !in todo then WithSnapshot(before[a], sessions[a], tick, world, hash)
                  else before[a]
      decreases todo
    {
      var addr :| addr in todo;
      todo := todo - {addr};
      ghost var footprint := manager.Footprint();
      label Before:
      SendSnapshot(manager, addr, sessions[addr], tick, world, hash, now);
      ghost var newer := manager.Footprint() - footprint;
      forall o | o in newer
        ensures fresh(o)
      {
        assert fresh@Before(o);
      }
      assert fresh(newer);
      made := made + newer;
    }
  }

  // ---------- the turn ----------

  lemma BroadcastKeepsSendable(all: map<Addr, ConnState>, sessions: map<Addr, S.Session>, tick: nat,
                               world: WorldState, hash: WorldState -> nat)
    requires AllSendable(all) && InRange(world)
    ensures AllSendable(Broadcasted(all, sessions, tick, world, hash))
  {
    hide WithSnapshot, InRange, Sendable;
    forall a | a in all && a in sessions
      ensures Sendable(WithSnapshot(all[a], sessions[a], tick, world, hash).queue)
    {
      SnapshotKeepsSendable(all[a], sessions[a], tick, world, hash);
    }
  }

  lemma SurvivorsAreSendable(all: map<Addr, ConnState>, seen: map<Addr, nat>, now: nat, timeout: nat)
    requires AllSendable(all)
    ensures AllSendable(HeardWithin(all, seen, now, timeout))
  {
    hide Elapsed, Sendable;
  }

  /** The turn of the session loop that a turn of the whole server amounts to. */
  function TurnOf(polled: Polled, now: nat, timeout: nat): S.Turn {
    S.Turn(polled.arrivals, polled.all.Keys, HeardWithin(polled.all, polled.seen, now, timeout).Keys)
  }

  /** When the peers that are left were last heard of. */
  function SeenAfter(polled: Polled, now: nat, timeout: nat): map<Addr, nat> {
    HeardWithin(polled.seen, polled.seen, now, timeout)
  }

  /** The connections as they are flushed at the end of a turn in which `sessions` were played. */
  function ToFlush(polled: Polled, sessions: map<Addr, S.Session>, tick: nat, world: WorldState,
                   hash: WorldState -> nat, now: nat, timeout: nat): map<Addr, ConnState>
    requires InRange(world)
  {
    HeardWithin(Broadcasted(polled.all, sessions, tick, world, hash), polled.seen, now, timeout)
  }

  /** Can the world take one more step without leaving the range of i32? */
  predicate RoomToMove(w: WorldState) {
    w.positions != [] && InRange(w) && w.positions[0].x + 10 < 0x8000_0000
  }

  lemma StepStaysInRange(w: WorldState, input: InputMask)
    requires RoomToMove(w)
    ensures InRange(StepPhysics(w, input))
  {}

  /** The broadcast, and then the eviction of stale connections. */
  method BroadcastAndEvict(manager: ConnectionManager, sessions: map<Addr, S.Session>, tick: nat, world: WorldState,
                           hash: WorldState -> nat, now: nat, timeout: nat, ghost polled: Polled)
      returns (active: set<Addr>)
    requires manager.Valid() && AllSendable(manager.View()) && InRange(world)
    requires polled.all == manager.View() && polled.seen == manager.Seen()
    modifies manager`connections, manager.Footprint()
    ensures manager.Valid() && AllSendable(manager.View())
    ensures fresh(manager.Footprint() - old(manager.Footprint()))
    ensures manager.View() == ToFlush(polled, sessions, tick, world, hash, now, timeout)
    ensures manager.Seen() == SeenAfter(polled, now, timeout)
    ensures active == manager.View().Keys
  {
    hide ConnectionManager.Valid, ConnectionManager.Seen, ConnectionManager.Footprint, AllSendable, InRange,
      Broadcasted, HeardWithin;
    Broadcast(manager, sessions, tick, world, hash, now);
    BroadcastKeepsSendable(polled.all, sessions, tick, world, hash);
    manager.EvictStale(now, timeout);
    SurvivorsAreSendable(Broadcasted(polled.all, sessions, tick, world, hash), polled.seen, now, timeout);
    active := manager.connections.Keys;
  }

  lemma SurvivorsOfBroadcast(polled: Polled, sessions: map<Addr, S.Session>, tick: nat, world: WorldState,
                             hash: WorldState -> nat, now: nat, timeout: nat)
    requires InRange(world)
    ensures ToFlush(polled, sessions, tick, world, hash, now, timeout).Keys == TurnOf(polled, now, timeout).surviving
  {
    hide WithSnapshot, InRange, Elapsed;
  }

  lemma ServerIsApart(server: S.GameServer, manager: ConnectionManager)
    ensures server !in manager.Footprint() && (server as object) != manager
  {}

  lemma ManagerIsApart(manager: ConnectionManager)
    ensures manager !in manager.Footprint()
  {}

  /** The manager does not see what happens to the sessions. */
  method RetainSessions(server: S.GameServer, manager: ConnectionManager, active: set<Addr>)
    requires manager.Valid()
    modifies server`sessions
    ensures server.sessions == S.Surviving(old(server.sessions), active)
    ensures manager.Valid() && manager.View() == old(manager.View()) && manager.Seen() == old(manager.Seen())
    ensures manager.Footprint() == old(manager.Footprint())
  {
    hide S.Surviving, Sound, Connection.Value;
    ServerIsApart(server, manager);
    server.Retain(active);
  }

  /** Everything after the sessions have been played: broadcast, eviction, retention and flush. */
  method FinishTurn(server: S.GameServer, manager: ConnectionManager, hash: WorldState -> nat, now: nat, timeout: nat,
                    ghost polled: Polled)
      returns (out: seq<Datagram>, ghost order: seq<Addr>)
    requires manager.Valid() && AllSendable(manager.View()) && InRange(server.world)
    requires polled.all == manager.View() && polled.seen == manager.Seen()
    modifies server`sessions, manager`connections, manager.Footprint()
    ensures manager.Valid() && manager.Seen() == SeenAfter(polled, now, timeout)
    ensures fresh(manager.Footprint() - old(manager.Footprint()))
    ensures var last := ToFlush(polled, old(server.sessions), server.currentTick, server.world, hash, now, timeout);
            && server.sessions == S.Surviving(old(server.sessions), TurnOf(polled, now, timeout).surviving)
            && manager.View().Keys == last.Keys
            && (forall a | a in last :: manager.View()[a] == Updated(manager.cipher, last[a], now))
            && Distinct(order) && Elements(order) == last.Keys
            && out == Manager.Flushed(manager.cipher, last, order, now)
  {
    hide ConnectionManager.Valid, ConnectionManager.Seen, ConnectionManager.View, ConnectionManager.Footprint, Updated,
      Sendable, InRange, ToFlush, TurnOf, S.Surviving, Manager.Flushed, Elements, Distinct;
    ServerIsApart(server, manager);
    SurvivorsOfBroadcast(polled, server.sessions, server.currentTick, server.world, hash, now, timeout);
    var active := BroadcastAndEvict(manager, server.sessions, server.currentTick, server.world, hash, now, timeout,
                                    polled);
    RetainSessions(server, manager, active);
    ManagerIsApart(manager);
    out, order := manager.FlushAll(now);
  }

  /**
    One turn of the loop. The sessions and the world take the step that the inputs found in the
    packets, the connections and the eviction amount to; every surviving connection is flushed with
    its snapshot queued behind what it had to say.
   */
  method RunTurn(server: S.GameServer, manager: ConnectionManager, interpolator: I.Interpolator<WorldState>,
                 hash: WorldState -> nat, packets: seq<FromWire>, now: nat, timeout: nat)
      returns (out: seq<Datagram>, ghost order: seq<Addr>)
    requires manager.Valid() && AllSendable(manager.View()) && interpolator.Valid() && RoomToMove(server.world)
    modifies server, interpolator, manager`connections, manager.Footprint()
    ensures manager.Valid() && interpolator.Valid() && server.currentTick == old(server.currentTick) + 1
    ensures fresh(manager.Footprint() - old(manager.Footprint()))
    ensures var polled := AfterPoll(manager.cipher, Polled(old(manager.View()), old(manager.Seen()), []), packets, now);
            && server.Value() == S.Turned(old(server.Value()), TurnOf(polled, now, timeout), server.currentTick)
            && manager.Seen() == SeenAfter(polled, now, timeout)
            && InRange(server.world)
            && var played := S.PlayedAll(S.Filled(old(server.sessions), polled.arrivals, polled.all.Keys),
                                         server.currentTick);
               var last := ToFlush(polled, played, server.currentTick, server.world, hash, now, timeout);
               && manager.View().Keys == last.Keys
               && (forall a | a in last :: manager.View()[a] == Updated(manager.cipher, last[a], now))
               && Distinct(order) && Elements(order) == last.Keys
               && out == Manager.Flushed(manager.cipher, last, order, now)
    ensures interpolator.pushed == old(interpolator.pushed) + [I.Snapshot(server.currentTick, server.world)]
  {
    hide ConnectionManager.Valid, ConnectionManager.Seen, ConnectionManager.Footprint, Updated, AllSendable, AfterPoll,
      Sendable, InRange, ToFlush, S.Surviving, Manager.Flushed, Elements, Distinct, S.Filled, S.PlayedAll, S.Held,
      S.OrOf, StepPhysics;
    ServerIsApart(server, manager);
    InterpolatorIsApart(interpolator, manager);
    ghost var start := Polled(manager.View(), manager.Seen(), []);
    var arrivals := Poll(manager, packets, now);
    ghost var polled := AfterPoll(manager.cipher, start, packets, now);
    var active := manager.connections.Keys;
    assert active == polled.all.Keys;
    ghost var footprint := manager.Footprint();
    hide ConnectionManager.View;
    PlayAndRecord(server, manager, interpolator, arrivals, active);
    StepStaysInRange(old(server.world), S.OrOf(S.Held(server.sessions)));
    label Played:
    out, order := FinishTurn(server, manager, hash, now, timeout, polled);
    ghost var newer := manager.Footprint() - footprint;
    forall o | o in newer
      ensures fresh(o)
    {
      assert fresh@Played(o);
    }
    assert manager.Footprint() - old(manager.Footprint()) <= (footprint - old(manager.Footprint())) + newer;
    assert fresh((footprint - old(manager.Footprint())) + newer);
  }

  /** The sessions are played and the world is recorded; the manager sees nothing of it. */
  method PlayAndRecord(server: S.GameServer, manager: ConnectionManager, interpolator: I.Interpolator<WorldState>,
                       arrivals: seq<S.Arrival>, active: set<Addr>)
    requires manager.Valid() && interpolator.Valid() && server.world.positions != []
    modifies server, interpolator
    ensures server.currentTick == old(server.currentTick) + 1
    ensures server.sessions == S.PlayedAll(S.Filled(old(server.sessions), arrivals, active), server.currentTick)
    ensures server.world == StepPhysics(old(server.world), S.OrOf(S.Held(server.sessions)))
    ensures interpolator.Valid()
    ensures interpolator.pushed == old(interpolator.pushed) + [I.Snapshot(server.currentTick, server.world)]
    ensures manager.Valid() && manager.View() == old(manager.View()) && manager.Seen() == old(manager.Seen())
    ensures manager.Footprint() == old(manager.Footprint())
  {
    hide S.PlayedAll, S.Filled, S.Held, S.OrOf, StepPhysics, Sound, Connection.Value, I.Interpolator.Valid;
    ServerIsApart(server, manager);
    InterpolatorIsApart(interpolator, manager);
    server.PlayTick(arrivals, active);
    interpolator.PushSnapshot(I.Snapshot(server.currentTick, server.world));
  }

  lemma InterpolatorIsApart(interpolator: I.Interpolator<WorldState>, manager: ConnectionManager)
    ensures interpolator !in manager.Footprint() && (interpolator as object) != manager
  {}

  /**
    From the turn to the client: the snapshot queued for a session, once framed, is read by a peer with
    the same key as the tick, the hash and the first position of the world, and the last input's tick.
   */
  lemma SnapshotOfTurnIsRead(cipher: Cipher, c: ConnState, session: S.Session, tick: nat, world: WorldState,
                             hash: WorldState -> nat, peer: ConnState, now: nat)
    requires Inverts(cipher) && InRange(world) && world.positions != []
    requires InU64(SnapshotHeader(tick, hash(world), session.latestTick))
    requires c.pendingBytes + |SnapshotFor(session, tick, world, hash)| <= MAX_PENDING_BYTES
    requires var queued := WithSnapshot(c, session, tick, world, hash);
             && |queued.queue| == |c.queue| + 1 && NonceOf(queued, |c.queue|) < 0x1_0000_0000_0000_0000
             && WireOf(cipher, queued, |c.queue|).Some?
    requires peer.key == c.key
    ensures var queued := WithSnapshot(c, session, tick, world, hash);
            var received := Returned(Handled(cipher, peer, WireOf(cipher, queued, |c.queue|).value, now).1);
            received.Some? && ParseSnapshot(received.value) ==
                              Taken(SnapshotHeader(tick, hash(world), session.latestTick), world.positions[0])
  {
    hide WireOf, Handled, SnapshotPacket, ParseSnapshot, NonceOf, Inverts, InU64;
    SnapshotCrossesTheWire(cipher, WithSnapshot(c, session, tick, world, hash), |c.queue|, peer, now,
                           SnapshotHeader(tick, hash(world), session.latestTick), world.positions);
  }

  lemma {:induction false} LastWire(cipher: Cipher, c: ConnState, n: nat)
    requires 0 < n <= |c.queue| && WireOf(cipher, c, n - 1).Some?
    ensures Wires(cipher, c, n) != []
    ensures Wires(cipher, c, n)[|Wires(cipher, c, n)| - 1] == WireOf(cipher, c, n - 1).value
  {
    hide WireOf;
  }

  lemma EmissionEnds(cipher: Cipher, c: ConnState, now: nat)
    requires c.queue != [] && WireOf(cipher, c, |c.queue| - 1).Some?
    ensures var wires := Emission(cipher, c, now);
            wires != [] && wires[|wires| - 1] == WireOf(cipher, c, |c.queue| - 1).value
  {
    LastWire(cipher, c, |c.queue|);
    hide WireOf, ResentData;
  }

  /** A connection that survives and has a session leaves with one more send, the snapshot. */
  lemma SurvivorIsOffered(polled: Polled, sessions: map<Addr, S.Session>, tick: nat, world: WorldState,
                          hash: WorldState -> nat, now: nat, timeout: nat, addr: Addr)
    requires InRange(world) && addr in sessions
    requires addr in ToFlush(polled, sessions, tick, world, hash, now, timeout)
    requires polled.all[addr].pendingBytes + |SnapshotFor(sessions[addr], tick, world, hash)| <= MAX_PENDING_BYTES
    ensures var c := polled.all[addr];
            var queued := WithSnapshot(c, sessions[addr], tick, world, hash);
            && ToFlush(polled, sessions, tick, world, hash, now, timeout)[addr] == queued
            && |queued.queue| == |c.queue| + 1
  {
    hide SnapshotFor, InRange;
  }

  /**
    What a turn sends to a session whose connection survives ends with the snapshot of the turn, and a
    peer with the connection's key reads it as the tick, the hash, the last input's tick and the first
    position of the world.
   */
  lemma TurnEndsWithSnapshot(cipher: Cipher, polled: Polled, sessions: map<Addr, S.Session>, tick: nat,
                             world: WorldState, hash: WorldState -> nat, now: nat, timeout: nat, order: seq<Addr>,
                             out: seq<Datagram>, addr: Addr, peer: ConnState, later: nat)
    requires Inverts(cipher) && InRange(world) && world.positions != []
    requires var last := ToFlush(polled, sessions, tick, world, hash, now, timeout);
             && Distinct(order) && Elements(order) == last.Keys && out == Manager.Flushed(cipher, last, order, now)
             && addr in last && addr in sessions
             && last[addr].queue != [] && NonceOf(last[addr], |last[addr].queue| - 1) < 0x1_0000_0000_0000_0000
             && WireOf(cipher, last[addr], |last[addr].queue| - 1).Some?
    requires InU64(SnapshotHeader(tick, hash(world), sessions[addr].latestTick))
    requires polled.all[addr].pendingBytes + |SnapshotFor(sessions[addr], tick, world, hash)| <= MAX_PENDING_BYTES
    requires peer.key == polled.all[addr].key
    ensures var wires := To(addr, out);
            && wires != []
            && var received := Returned(Handled(cipher, peer, wires[|wires| - 1], later).1);
               received.Some? && ParseSnapshot(received.value) ==
                                 Taken(SnapshotHeader(tick, hash(world), sessions[addr].latestTick), world.positions[0])
  {
    var last := ToFlush(polled, sessions, tick, world, hash, now, timeout);
    assert addr in order;
    hide Manager.Flushed, Distinct, Elements, ToFlush, WireOf, Handled, ParseSnapshot, SnapshotFor, NonceOf, Inverts,
      InU64, InRange, Emission, WithSnapshot, To;
    EachPeerItsOwn(cipher, last, order, now, addr);
    EmissionEnds(cipher, last[addr], now);
    SurvivorIsOffered(polled, sessions, tick, world, hash, now, timeout, addr);
    SnapshotOfTurnIsRead(cipher, polled.all[addr], sessions[addr], tick, world, hash, peer, later);
  }
}
