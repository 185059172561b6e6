/** The connection manager: routing of incoming packets, the handshake and flushing. */
module Manager {
  import opened Numbers
  import opened Protocol
  import opened Packet
  import opened Pipeline
  import opened Connection

  /** What becomes of an incoming packet. The source returns data for `App` and nothing otherwise. */
  datatype Delivery = Dropped | App(data: Bytes) | Rekeyed(key: Key) | Disconnected

  function Returned(d: Delivery): Option<Bytes> {
    if d.App? then Some(d.data) else None
  }

  /** A decrypted reliable payload is taken for a handshake on its type byte and its length alone. */
  predicate HandshakeShaped(payload: Bytes) {
    |payload| >= GENERAL_SIZE + KEY_SIZE && payload[0] == RELIABLE
  }

  /** The session key in a payload that is shaped as a handshake. */
  function SessionKey(payload: Bytes): Key
    requires HandshakeShaped(payload)
  {
    payload[GENERAL_SIZE..GENERAL_SIZE + KEY_SIZE]
  }

  /** Handling of one packet by an existing connection. */
  function Handled(cipher: Cipher, c: ConnState, data: Bytes, now: nat): (ConnState, Delivery) {
    if data == [] then (c, Dropped)
    else if data[0] == RELIABLE then
      if |data| < GENERAL_SIZE + RELIABILITY_SIZE then (c, Dropped)
      else
        var h := DecodeHeader(data[GENERAL_SIZE..]);
        var heard := c.(rel := Incoming(c.rel, h, now));
        var content := cipher.open(c.key, data[GENERAL_SIZE + RELIABILITY_SIZE..], h.sequence);
        if content.None? then (heard, Dropped)
        else if HandshakeShaped(content.value) then
          (heard.(authenticated := true, key := SessionKey(content.value)), Rekeyed(SessionKey(content.value)))
        else (heard, App(content.value))
    else if data[0] == INPUT || data[0] == SNAPSHOT then
      if |data| < GENERAL_SIZE + NONCE_SIZE then (c, Dropped)
      else
        var content := cipher.open(c.key, data[GENERAL_SIZE + NONCE_SIZE..], U64At(data, GENERAL_SIZE));
        (c, if content.Some? then App(data[..1] + content.value) else Dropped)
    else if data[0] == DISCONNECT then (c, Disconnected)
    else (c, Dropped)
  }

  /** The connection a server opens for an unknown peer: the handshake is queued, the key waits for the flush. */
  function Opened(now: nat, key: Key): ConnState {
    WithHandshake(NewState(true, now), key)
  }

  /** All connections after one packet from `addr`; `key` is the session key made up for a new peer. */
  function Routed(cipher: Cipher, all: map<Addr, ConnState>, addr: Addr, data: Bytes, now: nat, key: Key):
      (map<Addr, ConnState>, Delivery)
  {
    var (c, d) := Handled(cipher, if addr in all then all[addr] else Opened(now, key), data, now);
    (if d.Disconnected? then all - {addr} else all[addr := c], d)
  }

  /** A packet concerns the connection of its sender and no other. */
  lemma PacketConcernsItsSender(cipher: Cipher, all: map<Addr, ConnState>, addr: Addr, data: Bytes, now: nat, key: Key,
                                other: Addr)
    requires other != addr
    ensures var after := Routed(cipher, all, addr, data, now, key).0;
            (other in after <==> other in all) && (other in all ==> after[other] == all[other])
  {
    hide Handled, Opened;
  }

  /** After its packet a peer has a connection unless the packet was a disconnect, which leaves none. */
  lemma DisconnectForgetsExactly(cipher: Cipher, all: map<Addr, ConnState>, addr: Addr, data: Bytes, now: nat, key: Key)
    ensures addr !in Routed(cipher, all, addr, data, now, key).0 <==> data != [] && data[0] == 2
  {
    hide Opened, Incoming, DecodeHeader, HandshakeShaped, SessionKey;
  }

  /** What is left of `all` when the peers not heard of for `timeout` are dropped. */
  function HeardWithin<T>(all: map<Addr, T>, seen: map<Addr, nat>, now: nat, timeout: nat): map<Addr, T> {
    map a | a in all && a in seen && Elapsed(now, seen[a]) < timeout as real :: all[a]
  }

  /** A wire packet and where it goes. */
  datatype Datagram = Datagram(addr: Addr, wire: Bytes)

  function Addressed(addr: Addr, wires: seq<Bytes>): (out: seq<Datagram>)
    ensures |out| == |wires|
  {
    seq(|wires|, i requires 0 <= i < |wires| => Datagram(addr, wires[i]))
  }

  /** Everything a flush of `all` hands to the socket when the connections are taken in this order. */
  function Flushed(cipher: Cipher, all: map<Addr, ConnState>, order: seq<Addr>, now: nat): seq<Datagram>
    requires forall a | a in order :: a in all
  {
    if order == [] then []
    else
      var last := order[|order| - 1];
      Flushed(cipher, all, order[..|order| - 1], now) + Addressed(last, Emission(cipher, all[last], now))
  }

  lemma RemoveUpdated(all: map<Addr, ConnState>, addr: Addr, c: ConnState)
    ensures all[addr := c] - {addr} == all - {addr}
  {}

  method Handle(conn: Connection, data: Bytes, now: nat) returns (delivery: Delivery)
    requires conn.Valid()
    modifies conn`key, conn`isAuthenticated, conn.state
    ensures conn.Valid()
    ensures (conn.Value(), delivery) == Handled(conn.cipher, old(conn.Value()), data, now)
  {
    if data == [] {
      return Dropped;
    }
    if data[0] == RELIABLE {
      if |data| >= GENERAL_SIZE + RELIABILITY_SIZE {
        var header := DecodeHeader(data[GENERAL_SIZE..]);
        var isNew := conn.state.ProcessIncomingHeader(header, now);
        var content := conn.cipher.open(conn.key, data[GENERAL_SIZE + RELIABILITY_SIZE..], header.sequence);
        if content.None? {
          return Dropped;
        }
        if HandshakeShaped(content.value) {
          conn.isAuthenticated := true;
          conn.key := SessionKey(content.value);
          return Rekeyed(conn.key);
        }
        return App(content.value);
      }
    } else if data[0] == INPUT || data[0] == SNAPSHOT {
      if |data| < GENERAL_SIZE + NONCE_SIZE {
        return Dropped;
      }
      var nonce := U64At(data, GENERAL_SIZE);
      var content := conn.cipher.open(conn.key, data[GENERAL_SIZE + NONCE_SIZE..], nonce);
      if content.None? {
        return Dropped;
      }
      return App(data[..1] + content.value);
    } else if data[0] == DISCONNECT {
      return Disconnected;
    }
    return Dropped;
  }

  class ConnectionManager {
    const cipher: Cipher
    var connections: map<Addr, Connection>

    ghost function Footprint(): set<object>
      reads this
    {
      (set a | a in connections :: connections[a] as object)
      + (set a | a in connections :: connections[a].state as object)
    }

    /** Every connection carries its own address, so no two share anything. */
    ghost predicate Separate()
      reads this
    {
      forall a | a in connections :: connections[a].endpoint == a == connections[a].state.endpoint
    }

    ghost predicate Valid()
      reads this, Footprint()
    {
      && Separate()
      && (forall a | a in connections :: Sound(connections[a].Value()) && connections[a].cipher == cipher)
    }

    ghost function View(): map<Addr, ConnState>
      reads this, Footprint()
    {
      map a | a in connections :: connections[a].Value()
    }

    /** When each peer was last heard of. */
    ghost function Seen(): map<Addr, nat>
      reads this, Footprint()
    {
      map a | a in connections :: connections[a].lastSeen
    }

    constructor (cipher: Cipher)
      ensures Valid() && View() == map[] && Seen() == map[] && Footprint() == {} && this.cipher == cipher
    {
      this.cipher := cipher;
      connections := map[];
    }

    /** Opens a connection for an unknown address. */
    method Open(addr: Addr, isServer: bool, now: nat)
      requires Valid() && addr !in connections
      modifies this`connections
      ensures Valid()
      ensures fresh(Footprint() - old(Footprint()))
      ensures addr in connections && fresh(connections[addr]) && fresh(connections[addr].state)
      ensures connections == old(connections)[addr := connections[addr]]
      ensures View() == old(View())[addr := NewState(isServer, now)]
      ensures Seen() == old(Seen())[addr := now]
    {
      hide Sound, Connection.Value, NewState;
      var conn := new Connection(addr, cipher, isServer, now);
      assert View() == old(View()) && Seen() == old(Seen());
      hide View, Seen, Separate, Footprint;
      Adopt(addr, conn);
    }

    method Adopt(addr: Addr, conn: Connection)
      requires Valid() && addr !in connections
      requires conn.Valid() && conn.cipher == cipher && conn.endpoint == addr == conn.state.endpoint
      modifies this`connections
      ensures Valid()
      ensures Footprint() <= old(Footprint()) + {conn, conn.state}
      ensures connections == old(connections)[addr := conn]
      ensures View() == old(View())[addr := conn.Value()]
      ensures Seen() == old(Seen())[addr := conn.lastSeen]
    {
      hide Sound, Connection.Value;
      connections := connections[addr := conn];
    }

    method QueueHandshakeFor(addr: Addr, sessionKey: Key)
      requires Valid() && addr in connections
      modifies connections[addr]
      ensures Valid()
      ensures View() == old(View())[addr := WithHandshake(old(View())[addr], sessionKey)]
      ensures Seen() == old(Seen())
    {
      hide Sound, Connection.Value, WithHandshake;
      connections[addr].QueueHandshake(sessionKey);
    }

    method HandleKnown(addr: Addr, data: Bytes, now: nat) returns (delivery: Delivery)
      requires Valid() && addr in connections
      modifies connections[addr], connections[addr].state
      ensures Valid()
      ensures var (c, d) := Handled(cipher, old(View())[addr], data, now);
              View() == old(View())[addr := c] && delivery == d
      ensures Seen() == old(Seen())
    {
      hide Sound, Connection.Value, Handled;
      delivery := Handle(connections[addr], data, now);
    }

    method Remove(addr: Addr)
      requires Valid()
      modifies this`connections
      ensures Valid()
      ensures Footprint() <= old(Footprint())
      ensures View() == old(View()) - {addr} && Seen() == old(Seen()) - {addr}
    {
      hide Sound, Connection.Value;
      connections := connections - {addr};
    }

    method OpenWithHandshake(addr: Addr, now: nat, sessionKey: Key)
      requires Valid() && addr !in connections
      modifies this`connections
      ensures Valid()
      ensures fresh(Footprint() - old(Footprint()))
      ensures addr in connections && fresh(connections[addr]) && fresh(connections[addr].state)
      ensures View() == old(View())[addr := Opened(now, sessionKey)]
      ensures Seen() == old(Seen())[addr := now]
    {
      hide View, Seen, Separate, Footprint, Sound, Connection.Value, NewState, WithHandshake;
      Open(addr, true, now);
      QueueHandshakeFor(addr, sessionKey);
    }

    /** Opens a server connection, with the handshake queued, if `addr` is unknown, and notes the time. */
    method Admit(addr: Addr, now: nat, sessionKey: Key)
      requires Valid()
      modifies this`connections, if addr in connections then {connections[addr]} else {}
      ensures Valid()
      ensures fresh(Footprint() - old(Footprint()))
      ensures addr in connections
      ensures addr in old(connections) ==> connections == old(connections)
      ensures addr !in old(connections) ==> fresh(connections[addr]) && fresh(connections[addr].state)
      ensures View() == if addr in old(View()) then old(View()) else old(View())[addr := Opened(now, sessionKey)]
      ensures Seen() == old(Seen())[addr := now]
    {
      assert addr in connections <==> addr in View();
      hide View, Seen, Separate, Footprint, Sound, Connection.Value, Opened;
      if addr !in connections {
        OpenWithHandshake(addr, now, sessionKey);
      } else {
        TouchKnown(addr, now);
      }
    }

    method TouchKnown(addr: Addr, now: nat)
      requires Valid() && addr in connections
      modifies connections[addr]
      ensures Valid()
      ensures View() == old(View()) && Seen() == old(Seen())[addr := now]
    {
      hide Sound, Connection.Value;
      connections[addr].Touch(now);
    }

    method HandlePacket(addr: Addr, data: Bytes, now: nat, sessionKey: Key) returns (appData: Option<Bytes>)
      requires Valid()
      modifies this`connections, Footprint()
      ensures Valid()
      ensures fresh(Footprint() - old(Footprint()))
      ensures var (all, delivery) := Routed(cipher, old(View()), addr, data, now, sessionKey);
              && View() == all && appData == Returned(delivery)
              && Seen() == if delivery.Disconnected? then old(Seen()) - {addr} else old(Seen())[addr := now]
    {
      hide View, Seen, Separate, Sound, Connection.Value, Handled, Opened;
      Admit(addr, now, sessionKey);
      var delivery := HandleOrRemove(addr, data, now);
      return Returned(delivery);
    }

    /** A packet of a known peer, which is forgotten if it disconnects. */
    method HandleOrRemove(addr: Addr, data: Bytes, now: nat) returns (delivery: Delivery)
      requires Valid() && addr in connections
      modifies this`connections, connections[addr], connections[addr].state
      ensures Valid()
      ensures Footprint() <= old(Footprint())
      ensures var (c, d) := Handled(cipher, old(View())[addr], data, now);
              && delivery == d
              && View() == (if d.Disconnected? then old(View()) - {addr} else old(View())[addr := c])
              && Seen() == if d.Disconnected? then old(Seen()) - {addr} else old(Seen())
    {
      ghost var before := View();
      assert addr in before;
      hide View, Seen, Separate, Sound, Connection.Value, Handled;
      delivery := HandleKnown(addr, data, now);
      if delivery.Disconnected? {
        Remove(addr);
        RemoveUpdated(before, addr, Handled(cipher, before[addr], data, now).0);
      }
    }

    method QueueFor(addr: Addr, data: Bytes, reliable: bool)
      requires Valid() && addr in connections
      modifies connections[addr]
      ensures Valid()
      ensures View() == old(View())[addr := Queued(old(View())[addr], data, reliable)]
      ensures Seen() == old(Seen())
    {
      hide Sound, Connection.Value, Queued;
      connections[addr].QueuePendingSend(data, reliable);
    }

    method SendToClient(addr: Addr, data: Bytes, reliable: bool, isServer: bool, now: nat)
      requires Valid()
      modifies this`connections, Footprint()
      ensures Valid()
      ensures fresh(Footprint() - old(Footprint()))
      ensures var before := if addr in old(View()) then old(View())[addr] else NewState(isServer, now);
              View() == old(View())[addr := Queued(before, data, reliable)]
      ensures Seen() == if addr in old(View()) then old(Seen()) else old(Seen())[addr := now]
    {
      hide View, Seen, Separate, Sound, Connection.Value, Queued, NewState;
      OpenIfMissing(addr, isServer, now);
      QueueFor(addr, data, reliable);
    }

    method OpenIfMissing(addr: Addr, isServer: bool, now: nat)
      requires Valid()
      modifies this`connections
      ensures Valid() && addr in connections
      ensures fresh(Footprint() - old(Footprint()))
      ensures addr in old(connections) ==> connections == old(connections)
      ensures addr !in old(connections) ==> fresh(connections[addr]) && fresh(connections[addr].state)
      ensures View() == if addr in old(View()) then old(View()) else old(View())[addr := NewState(isServer, now)]
      ensures Seen() == if addr in old(View()) then old(Seen()) else old(Seen())[addr := now]
    {
      assert addr in connections <==> addr in View();
      hide View, Seen, Separate, Footprint, Sound, Connection.Value, NewState;
      if addr !in connections {
        Open(addr, isServer, now);
      }
    }

    /** Drops every connection that has not been heard of for `timeout`. */
    method EvictStale(now: nat, timeout: nat)
      requires Valid()
      modifies this`connections
      ensures Valid()
      ensures Footprint() <= old(Footprint())
      ensures View() == HeardWithin(old(View()), old(Seen()), now, timeout)
      ensures Seen() == HeardWithin(old(Seen()), old(Seen()), now, timeout)
    {
      hide Sound, Connection.Value, Elapsed;
      connections := map a | a in connections && Elapsed(now, connections[a].lastSeen) < timeout as real ::
        connections[a];
    }

    method UpdateOne(addr: Addr, now: nat) returns (out: seq<Bytes>)
      requires Valid() && addr in connections && Sendable(View()[addr].queue)
      modifies connections[addr], connections[addr].state
      ensures Valid()
      ensures View() == old(View())[addr := Updated(cipher, old(View())[addr], now)]
      ensures Seen() == old(Seen())
      ensures out == Emission(cipher, old(View())[addr], now)
    {
      hide Sound, Connection.Value, Updated, Emission, Sendable;
      out := connections[addr].Update(now);
    }

    /** Flushes every connection once, one after the other in an arbitrary order. */
    method FlushAll(now: nat) returns (out: seq<Datagram>, ghost order: seq<Addr>)
      requires Valid()
      requires forall a | a in View() :: Sendable(View()[a].queue)
      modifies Footprint()
      ensures Valid() && Seen() == old(Seen())
      ensures View().Keys == old(View()).Keys
      ensures forall a | a in old(View()) :: View()[a] == Updated(cipher, old(View())[a], now)
      ensures Distinct(order) && Elements(order) == old(View()).Keys
      ensures out == Flushed(cipher, old(View()), order, now)
    {
      hide Sound, Connection.Value, Updated, Emission, Sendable, Addressed;
      out, order := [], [];
      ghost var before := View();
      var todo := connections.Keys;
      assert before.Keys == todo && HalfFlushed(cipher, before, before, [], now);
      hide View, Seen, Separate, HalfFlushed, Elements;
      while todo != {}
        invariant Valid() && Seen() == old(Seen())
        invariant View().Keys == connections.Keys && todo <= before.Keys
        invariant forall a :: a in order <==> a in before && a !in todo
        invariant HalfFlushed(cipher, before, View(), order, now)
        invariant out == Flushed(cipher, before, order, now)
        decreases todo
      {
        var addr :| addr in todo;
        HalfFlushedAt(cipher, before, View(), order, addr, now);
        ghost var view := View();
        var wires := UpdateOne(addr, now);
        FlushedOneMore(cipher, before, order, addr, now);
        HalfFlushedOneMore(cipher, before, view, order, addr, now);
        out := out + Addressed(addr, wires);
        order := order + [addr];
        todo := todo - {addr};
      }
      WhollyFlushed(cipher, before, View(), order, now);
    }
  }

  /** `view` is `before` with the connections in `order` flushed. */
  ghost predicate HalfFlushed(cipher: Cipher, before: map<Addr, ConnState>, view: map<Addr, ConnState>,
                              order: seq<Addr>, now: nat)
  {
    && view.Keys == before.Keys && Distinct(order)
    && forall a | a in before :: view[a] == if a in order then Updated(cipher, before[a], now) else before[a]
  }

  lemma HalfFlushedAt(cipher: Cipher, before: map<Addr, ConnState>, view: map<Addr, ConnState>, order: seq<Addr>,
                      addr: Addr, now: nat)
    requires HalfFlushed(cipher, before, view, order, now) && addr in before && addr !in order
    ensures addr in view && view[addr] == before[addr]
  {
    hide Updated, Distinct;
  }

  lemma HalfFlushedOneMore(cipher: Cipher, before: map<Addr, ConnState>, view: map<Addr, ConnState>, order: seq<Addr>,
                           addr: Addr, now: nat)
    requires HalfFlushed(cipher, before, view, order, now) && addr in before && addr !in order
    ensures HalfFlushed(cipher, before, view[addr := Updated(cipher, before[addr], now)], order + [addr], now)
  {
    hide Updated;
  }

  lemma WhollyFlushed(cipher: Cipher, before: map<Addr, ConnState>, view: map<Addr, ConnState>, order: seq<Addr>,
                      now: nat)
    requires HalfFlushed(cipher, before, view, order, now) && forall a :: a in order <==> a in before
    ensures view.Keys == before.Keys && Distinct(order) && Elements(order) == before.Keys
    ensures forall a | a in before :: view[a] == Updated(cipher, before[a], now)
  {
    hide Updated, Distinct;
  }

  predicate Distinct(order: seq<Addr>) {
    forall i, j :: 0 <= i < j < |order| ==> order[i] != order[j]
  }

  lemma FlushedOneMore(cipher: Cipher, all: map<Addr, ConnState>, order: seq<Addr>, addr: Addr, now: nat)
    requires addr in all && forall a | a in order :: a in all
    ensures Flushed(cipher, all, order + [addr], now) ==
            Flushed(cipher, all, order, now) + Addressed(addr, Emission(cipher, all[addr], now))
  {
    hide Emission, Addressed;
    assert (order + [addr])[..|order|] == order;
  }

  /** The wires among `out` that go to `addr`, in order. */
  function To(addr: Addr, out: seq<Datagram>): seq<Bytes> {
    if out == [] then []
    else To(addr, out[..|out| - 1]) + if out[|out| - 1].addr == addr then [out[|out| - 1].wire] else []
  }

  lemma ToNothing(addr: Addr)
    ensures To(addr, []) == []
  {}

  lemma ToOneMore(addr: Addr, out: seq<Datagram>, d: Datagram)
    ensures To(addr, out + [d]) == To(addr, out) + if d.addr == addr then [d.wire] else []
  {
    assert (out + [d])[..|out|] == out;
  }

  lemma {:induction false} ToOfConcat(addr: Addr, a: seq<Datagram>, b: seq<Datagram>)
    ensures To(addr, a + b) == To(addr, a) + To(addr, b)
  {
    hide To;
    if b == [] {
      assert a + b == a;
      ToNothing(addr);
    } else {
      var last := |b| - 1;
      ToOfConcat(addr, a, b[..last]);
      assert b == b[..last] + [b[last]] && a + b == a + b[..last] + [b[last]];
      ToOneMore(addr, b[..last], b[last]);
      ToOneMore(addr, a + b[..last], b[last]);
    }
  }

  lemma {:induction false} ToOfAddressed(addr: Addr, other: Addr, wires: seq<Bytes>)
    ensures To(addr, Addressed(other, wires)) == if addr == other then wires else []
  {
    if wires != [] {
      var before := wires[..|wires| - 1];
      ToOfAddressed(addr, other, before);
      assert Addressed(other, wires)[..|wires| - 1] == Addressed(other, before);
    }
  }

  /** Whatever the order, each peer is sent the emission of its own connection and nothing else. */
  lemma {:induction false} EachPeerItsOwn(cipher: Cipher, all: map<Addr, ConnState>, order: seq<Addr>, now: nat,
                                          addr: Addr)
    requires Distinct(order) && forall a | a in order :: a in all
    ensures To(addr, Flushed(cipher, all, order, now)) == if addr in order then Emission(cipher, all[addr], now) else []
  {
    hide Emission, Addressed, To;
    if order == [] {
      ToNothing(addr);
    } else {
      var before, last := order[..|order| - 1], order[|order| - 1];
      assert order == before + [last] && last !in before;
      EachPeerItsOwn(cipher, all, before, now, addr);
      FlushedOneMore(cipher, all, before, last, now);
      hide Flushed, Distinct;
      ToOfConcat(addr, Flushed(cipher, all, before, now), Addressed(last, Emission(cipher, all[last], now)));
      ToOfAddressed(addr, last, Emission(cipher, all[last], now));
    }
  }
}
