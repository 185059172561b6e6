/**
  One connection lifetime of a client and a server that exchange the session key: every
  interleaving of sends, flushes and deliveries over a network that loses, duplicates and reorders.

  The client has opened its own connection before anything arrives; neither side sends application
  data shaped as a handshake, and nothing is evicted.
 */
module Handshake {
  import opened Numbers
  import opened Protocol
  import opened Packet
  import opened Pipeline
  import opened Connection
  import opened Manager
  import opened RoundTrip

  datatype World = World(
    server: Option<ConnState>,
    client: ConnState,
    toClient: set<Bytes>,      // every wire packet the server ever handed to its socket
    toServer: set<Bytes>,
    serverChanges: nat,        // how often each side has replaced its key
    clientChanges: nat)

  datatype Event =
    | ClientSends(data: Bytes, reliable: bool)
    | ServerSends(data: Bytes, reliable: bool)
    | ClientFlushes(now: nat)
    | ServerFlushes(now: nat)
    | ServerReceives(wire: Bytes, now: nat)
    | ClientReceives(wire: Bytes, now: nat)

  const START := World(None, NewState(false, 0), {}, {}, 0, 0)

  /** Application data: not shaped as a handshake, and typed when unreliable. */
  predicate Application(data: Bytes, reliable: bool) {
    if reliable then !HandshakeShaped(data) else data != [] && (data[0] == INPUT || data[0] == SNAPSHOT)
  }

  predicate Enabled(w: World, e: Event) {
    match e
    case ClientSends(data, reliable) => Application(data, reliable)
    case ServerSends(data, reliable) => Application(data, reliable) && w.server.Some?
    case ClientFlushes(_) => true
    case ServerFlushes(_) => w.server.Some?
    case ServerReceives(wire, _) => wire in w.toServer
    case ClientReceives(wire, _) => wire in w.toClient
  }

  function Changes(d: Delivery): nat {
    if d.Rekeyed? then 1 else 0
  }

  /** `key` is the session key the server makes up when it first hears of the client. */
  function Step(cipher: Cipher, key: Key, w: World, e: Event): World {
    match e
    case ClientSends(data, reliable) => w.(client := Queued(w.client, data, reliable))
    case ServerSends(data, reliable) =>
      if w.server.None? then w else w.(server := Some(Queued(w.server.value, data, reliable)))
    case ClientFlushes(now) =>
      w.(client := Updated(cipher, w.client, now), toServer := w.toServer + Elements(Emission(cipher, w.client, now)))
    case ServerFlushes(now) =>
      if w.server.None? then w else
      var s := w.server.value;
      w.(server := Some(Updated(cipher, s, now)),
         toClient := w.toClient + Elements(Emission(cipher, s, now)),
         serverChanges := w.serverChanges + if s.swap.Some? then 1 else 0)
    case ServerReceives(wire, now) =>
      var known := if w.server.Some? then w.server.value else Opened(now, key);
      var (s, delivery) := Handled(cipher, known, wire, now);
      w.(server := if delivery.Disconnected? then None else Some(s),
         serverChanges := w.serverChanges + Changes(delivery))
    case ClientReceives(wire, now) =>
      var (c, delivery) := Handled(cipher, w.client, wire, now);
      w.(client := c, clientChanges := w.clientChanges + Changes(delivery))
  }

  /** The world after `events`; an event that is not enabled cannot happen and changes nothing. */
  function After(cipher: Cipher, key: Key, events: seq<Event>): World {
    if events == [] then START
    else
      var w := After(cipher, key, events[..|events| - 1]);
      if Enabled(w, events[|events| - 1]) then Step(cipher, key, w, events[|events| - 1]) else w
  }

  // ---------- what a wire packet can turn out to be ----------

  /** What a holder of `k` finds in a reliable frame. */
  function InnerOf(cipher: Cipher, k: Key, wire: Bytes): Option<Bytes> {
    if |wire| >= 9 && wire[0] == RELIABLE then cipher.open(k, wire[9..], DecodeHeader(wire[1..]).sequence) else None
  }

  predicate OpensToHandshake(cipher: Cipher, k: Key, wire: Bytes) {
    InnerOf(cipher, k, wire).Some? && HandshakeShaped(InnerOf(cipher, k, wire).value)
  }

  function FoundKey(cipher: Cipher, k: Key, wire: Bytes): Key
    requires OpensToHandshake(cipher, k, wire)
  {
    SessionKey(InnerOf(cipher, k, wire).value)
  }

  /** If it is a handshake at all, it is sealed under the bootstrap key and carries the session key. */
  ghost predicate FromServer(cipher: Cipher, key: Key, wire: Bytes) {
    && wire != [] && wire[0] != DISCONNECT
    && (forall k: Key | OpensToHandshake(cipher, k, wire) :: k == BootstrapKey() && FoundKey(cipher, k, wire) == key)
  }

  ghost predicate FromClient(cipher: Cipher, wire: Bytes) {
    && wire != [] && wire[0] != DISCONNECT
    && (forall k: Key :: !OpensToHandshake(cipher, k, wire))
  }

  // ---------- the invariant ----------

  /** The server has flushed the handshake and changed to the session key. */
  predicate Swapped(s: ConnState, key: Key) {
    s.key == key && s.swap == None
  }

  /** The handshake is queued, nothing has left yet. */
  predicate Pending(s: ConnState, key: Key) {
    s.key == BootstrapKey() && s.swap == Some(key) && s.rel.unacked == []
  }

  /** Reliable data shaped as a handshake waits only in front of the change of key, and is the handshake. */
  predicate ServerQueueOk(s: ConnState, key: Key) {
    forall i :: 0 <= i < |s.queue| ==>
      || Application(s.queue[i].data, s.queue[i].reliable)
      || (s.queue[i] == PendingSend(Handshake(key), true) && Pending(s, key))
  }

  predicate ClientQueueOk(c: ConnState) {
    forall i :: 0 <= i < |c.queue| ==> Application(c.queue[i].data, c.queue[i].reliable)
  }

  ghost predicate ServerOk(cipher: Cipher, key: Key, s: ConnState) {
    && (Pending(s, key) || Swapped(s, key))
    && ServerQueueOk(s, key)
    && (forall i :: 0 <= i < |s.rel.unacked| ==> FromServer(cipher, key, s.rel.unacked[i].data))
  }

  ghost predicate ClientOk(cipher: Cipher, key: Key, c: ConnState) {
    && (c.key == BootstrapKey() || c.key == key) && c.swap == None
    && (c.authenticated <==> c.key == key)
    && ClientQueueOk(c)
    && (forall i :: 0 <= i < |c.rel.unacked| ==> FromClient(cipher, c.rel.unacked[i].data))
  }

  predicate ServerSwapped(w: World, key: Key) {
    w.server.Some? && Swapped(w.server.value, key)
  }

  ghost predicate Ok(cipher: Cipher, key: Key, w: World) {
    && (w.server.Some? ==> ServerOk(cipher, key, w.server.value))
    && ClientOk(cipher, key, w.client)
    && (forall b | b in w.toClient :: FromServer(cipher, key, b))
    && (forall b | b in w.toServer :: FromClient(cipher, b))
    && (w.toClient != {} ==> ServerSwapped(w, key))
    && (w.client.key == key ==> ServerSwapped(w, key))
    && w.serverChanges == (if ServerSwapped(w, key) then 1 else 0)
    && w.clientChanges == (if w.client.key == key then 1 else 0)
  }

  // ---------- sealing ----------

  /** A framed send reveals its data to holders of the sender's key and nothing to others. */
  lemma WireReveals(cipher: Cipher, c: ConnState, i: nat, k: Key)
    requires Sealed(cipher) && i < |c.queue| && WireOf(cipher, c, i).Some?
    requires c.queue[i].reliable || c.queue[i].data[0] == INPUT || c.queue[i].data[0] == SNAPSHOT
    ensures var wire := WireOf(cipher, c, i).value;
            && wire != [] && wire[0] != DISCONNECT
            && InnerOf(cipher, k, wire) ==
               if c.queue[i].reliable && k == c.key then Some(c.queue[i].data) else None
  {
    if c.queue[i].reliable {
      var sequence := SequenceOf(c, i);
      var box := cipher.seal(c.key, c.queue[i].data, sequence).value;
      OpensExactly(cipher, c.key, c.queue[i].data, sequence, k, sequence);
      ReliableFrameParts(HeaderOf(c, i), box);
    }
  }

  lemma {:induction false} WireComesFromItem(cipher: Cipher, c: ConnState, n: nat, b: Bytes) returns (i: nat)
    requires n <= |c.queue| && b in Wires(cipher, c, n)
    ensures i < n && WireOf(cipher, c, i) == Some(b)
  {
    if WireOf(cipher, c, n - 1) == Some(b) {
      i := n - 1;
    } else {
      i := WireComesFromItem(cipher, c, n - 1, b);
    }
  }

  lemma {:induction false} UnackedComesFromItem(cipher: Cipher, c: ConnState, now: nat, n: nat, j: nat) returns (i: nat)
    requires n <= |c.queue| && j < |NewlyUnacked(cipher, c, now, n)|
    ensures i < n && WireOf(cipher, c, i) == Some(NewlyUnacked(cipher, c, now, n)[j].data)
  {
    if j < |NewlyUnacked(cipher, c, now, n - 1)| {
      i := UnackedComesFromItem(cipher, c, now, n - 1, j);
    } else {
      i := n - 1;
    }
  }

  lemma {:induction false} ResentComesFromUnacked(pkts: seq<Unacked>, now: nat, r0: real, n: nat, b: Bytes)
      returns (i: nat)
    requires n <= |pkts| && b in ResentData(pkts, now, r0, n)
    ensures i < n && pkts[i].data == b
  {
    if pkts[n - 1].data == b {
      i := n - 1;
    } else {
      i := ResentComesFromUnacked(pkts, now, r0, n - 1, b);
    }
  }

  lemma {:induction false} RemainingComesFrom(pkts: seq<Unacked>, h: Header)
    ensures forall p | p in Remaining(pkts, h) :: p in pkts
  {
    if pkts != [] {
      RemainingComesFrom(pkts[..|pkts| - 1], h);
    }
  }

  // ---------- the server ----------

  /** What a holder of `k` can take for a handshake in the wire of a queued item of the server. */
  lemma ServerWireOpens(cipher: Cipher, key: Key, s: ConnState, i: nat, k: Key)
    requires Sealed(cipher) && ServerQueueOk(s, key)
    requires i < |s.queue| && WireOf(cipher, s, i).Some?
    ensures var wire := WireOf(cipher, s, i).value;
            && wire != [] && wire[0] != DISCONNECT
            && (OpensToHandshake(cipher, k, wire) ==> k == BootstrapKey() && FoundKey(cipher, k, wire) == key)
  {
    hide WireOf, InnerOf, Sealed, HandshakeShaped, SessionKey, BootstrapKey, Handshake;
    HandshakeCarriesKey(key);
    ApplicationIsTyped(s.queue[i]);
    WireReveals(cipher, s, i, k);
  }

  lemma ApplicationIsTyped(ps: PendingSend)
    ensures Application(ps.data, ps.reliable) && !ps.reliable ==>
              ps.data != [] && (ps.data[0] == INPUT || ps.data[0] == SNAPSHOT)
  {}

  lemma ServerWire(cipher: Cipher, key: Key, s: ConnState, i: nat)
    requires Sealed(cipher) && ServerOk(cipher, key, s)
    requires i < |s.queue| && WireOf(cipher, s, i).Some?
    ensures FromServer(cipher, key, WireOf(cipher, s, i).value)
  {
    var wire := WireOf(cipher, s, i).value;
    ServerWireOpens(cipher, key, s, i, BootstrapKey());
    hide WireOf, OpensToHandshake, FoundKey, Sealed, ServerQueueOk, BootstrapKey;
    forall k: Key | OpensToHandshake(cipher, k, wire)
      ensures k == BootstrapKey() && FoundKey(cipher, k, wire) == key
    {
      ServerWireOpens(cipher, key, s, i, k);
    }
  }

  lemma ServerEmission(cipher: Cipher, key: Key, s: ConnState, now: nat, b: Bytes)
    requires Sealed(cipher) && ServerOk(cipher, key, s) && b in Emission(cipher, s, now)
    ensures FromServer(cipher, key, b)
  {
    hide FromServer, WireOf;
    if b in Wires(cipher, s, |s.queue|) {
      var i := WireComesFromItem(cipher, s, |s.queue|, b);
      ServerWire(cipher, key, s, i);
    } else {
      var i := ResentComesFromUnacked(s.rel.unacked, now, s.rel.rtt.rto, |s.rel.unacked|, b);
    }
  }

  /** What a flush leaves outstanding is what was outstanding, or the wire of a queued item. */
  lemma OutstandingAfterFlush(cipher: Cipher, c: ConnState, now: nat, j: nat) returns (i: nat)
    requires j < |Updated(cipher, c, now).rel.unacked|
    ensures var data := Updated(cipher, c, now).rel.unacked[j].data;
            if j < |c.rel.unacked| then data == c.rel.unacked[j].data
            else i < |c.queue| && WireOf(cipher, c, i) == Some(data)
  {
    hide WireOf, IsResent, Resends, Backoff, SequenceOf, NonceOf;
    i := 0;
    if j >= |c.rel.unacked| {
      i := UnackedComesFromItem(cipher, c, now, |c.queue|, j - |c.rel.unacked|);
    }
  }

  lemma ServerFlushOk(cipher: Cipher, key: Key, s: ConnState, now: nat)
    requires Sealed(cipher) && ServerOk(cipher, key, s)
    ensures ServerOk(cipher, key, Updated(cipher, s, now)) && Swapped(Updated(cipher, s, now), key)
  {
    var after := Updated(cipher, s, now);
    assert Swapped(after, key) && after.queue == [] by {
      hide Sealed, FromServer, NewlyUnacked, Retransmitted, SequenceOf, NonceOf, ServerQueueOk;
    }
    hide FromServer, WireOf, Sealed, Updated, Swapped, Pending;
    forall j | 0 <= j < |after.rel.unacked|
      ensures FromServer(cipher, key, after.rel.unacked[j].data)
    {
      var i := OutstandingAfterFlush(cipher, s, now, j);
      if j >= |s.rel.unacked| {
        ServerWire(cipher, key, s, i);
      }
    }
  }

  lemma OpenedOk(cipher: Cipher, key: Key, now: nat)
    ensures ServerOk(cipher, key, Opened(now, key)) && Pending(Opened(now, key), key)
  {
    assert |Handshake(key)| == 33;
  }

  // ---------- the client ----------

  lemma ClientWireOpens(cipher: Cipher, c: ConnState, i: nat, k: Key)
    requires Sealed(cipher) && ClientQueueOk(c)
    requires i < |c.queue| && WireOf(cipher, c, i).Some?
    ensures var wire := WireOf(cipher, c, i).value;
            wire != [] && wire[0] != DISCONNECT && !OpensToHandshake(cipher, k, wire)
  {
    hide WireOf, InnerOf, Sealed, HandshakeShaped;
    ApplicationIsTyped(c.queue[i]);
    WireReveals(cipher, c, i, k);
  }

  lemma ClientWire(cipher: Cipher, key: Key, c: ConnState, i: nat)
    requires Sealed(cipher) && ClientOk(cipher, key, c)
    requires i < |c.queue| && WireOf(cipher, c, i).Some?
    ensures FromClient(cipher, WireOf(cipher, c, i).value)
  {
    var wire := WireOf(cipher, c, i).value;
    ClientWireOpens(cipher, c, i, BootstrapKey());
    hide WireOf, OpensToHandshake, Sealed, ClientQueueOk, BootstrapKey;
    forall k: Key
      ensures !OpensToHandshake(cipher, k, wire)
    {
      ClientWireOpens(cipher, c, i, k);
    }
  }

  lemma ClientEmission(cipher: Cipher, key: Key, c: ConnState, now: nat, b: Bytes)
    requires Sealed(cipher) && ClientOk(cipher, key, c) && b in Emission(cipher, c, now)
    ensures FromClient(cipher, b)
  {
    hide FromClient, WireOf;
    if b in Wires(cipher, c, |c.queue|) {
      var i := WireComesFromItem(cipher, c, |c.queue|, b);
      ClientWire(cipher, key, c, i);
    } else {
      var i := ResentComesFromUnacked(c.rel.unacked, now, c.rel.rtt.rto, |c.rel.unacked|, b);
    }
  }

  lemma ClientFlushOk(cipher: Cipher, key: Key, c: ConnState, now: nat)
    requires Sealed(cipher) && ClientOk(cipher, key, c)
    ensures ClientOk(cipher, key, Updated(cipher, c, now)) && Updated(cipher, c, now).key == c.key
  {
    var after := Updated(cipher, c, now);
    assert after.key == c.key && after.swap == None && after.queue == [] && after.authenticated == c.authenticated by {
      hide Sealed, FromClient, NewlyUnacked, Retransmitted, SequenceOf, NonceOf, ClientQueueOk, BootstrapKey;
    }
    hide FromClient, WireOf, Sealed, Updated, BootstrapKey;
    forall j | 0 <= j < |after.rel.unacked|
      ensures FromClient(cipher, after.rel.unacked[j].data)
    {
      var i := OutstandingAfterFlush(cipher, c, now, j);
      if j >= |c.rel.unacked| {
        ClientWire(cipher, key, c, i);
      }
    }
  }

  /** A packet never adds to the outstanding list of the connection that hears it, and only a handshake rekeys it. */
  lemma HearingOnlyRemoves(cipher: Cipher, c: ConnState, wire: Bytes, now: nat)
    ensures var (after, delivery) := Handled(cipher, c, wire, now);
            && (forall p | p in after.rel.unacked :: p in c.rel.unacked)
            && (c.rel.unacked == [] ==> after.rel.unacked == [])
            && after.queue == c.queue && after.swap == c.swap
            && (delivery.Disconnected? ==> wire != [] && wire[0] == DISCONNECT)
            && (if delivery.Rekeyed? then
                  && OpensToHandshake(cipher, c.key, wire) && after.authenticated
                  && after.key == FoundKey(cipher, c.key, wire) == delivery.key
                else after.key == c.key && after.authenticated == c.authenticated)
  {
    hide DecodeHeader, HandshakeShaped, SessionKey;
    if |wire| >= 9 && wire[0] == RELIABLE {
      RemainingComesFrom(c.rel.unacked, DecodeHeader(wire[1..]));
    }
  }

  lemma ClientHears(cipher: Cipher, key: Key, c: ConnState, wire: Bytes, now: nat)
    requires key != BootstrapKey() && ClientOk(cipher, key, c) && FromServer(cipher, key, wire)
    ensures var (after, delivery) := Handled(cipher, c, wire, now);
            && ClientOk(cipher, key, after) && !delivery.Disconnected?
            && (if delivery.Rekeyed? then c.key == BootstrapKey() && after.key == key else after.key == c.key)
  {
    hide Handled, FromClient, OpensToHandshake, FoundKey, BootstrapKey;
    HearingOnlyRemoves(cipher, c, wire, now);
    var after := Handled(cipher, c, wire, now).0;
    forall j | 0 <= j < |after.rel.unacked|
      ensures FromClient(cipher, after.rel.unacked[j].data)
    {
      assert after.rel.unacked[j] in c.rel.unacked;
    }
  }

  lemma ServerHears(cipher: Cipher, key: Key, s: ConnState, wire: Bytes, now: nat)
    requires ServerOk(cipher, key, s) && FromClient(cipher, wire)
    ensures var (after, delivery) := Handled(cipher, s, wire, now);
            && ServerOk(cipher, key, after) && !delivery.Rekeyed? && !delivery.Disconnected?
            && (Swapped(after, key) <==> Swapped(s, key))
  {
    hide Handled, FromServer, OpensToHandshake, FoundKey, BootstrapKey;
    HearingOnlyRemoves(cipher, s, wire, now);
    var after := Handled(cipher, s, wire, now).0;
    forall j | 0 <= j < |after.rel.unacked|
      ensures FromServer(cipher, key, after.rel.unacked[j].data)
    {
      assert after.rel.unacked[j] in s.rel.unacked;
    }
  }

  // ---------- every step ----------

  lemma SendsKeepOk(cipher: Cipher, key: Key, w: World, e: Event)
    requires Ok(cipher, key, w) && Enabled(w, e) && (e.ClientSends? || e.ServerSends?)
    ensures Ok(cipher, key, Step(cipher, key, w, e))
  {
    if e.ClientSends? {
      ClientQueues(cipher, key, w.client, e.data, e.reliable);
    } else {
      ServerQueues(cipher, key, w.server.value, e.data, e.reliable);
    }
    hide FromClient, FromServer, ClientOk, ServerOk, Application, Queued, Swapped;
  }

  lemma ClientQueues(cipher: Cipher, key: Key, c: ConnState, data: Bytes, reliable: bool)
    requires ClientOk(cipher, key, c) && Application(data, reliable)
    ensures ClientOk(cipher, key, Queued(c, data, reliable)) && Queued(c, data, reliable).key == c.key
  {
    hide FromClient, Application, BootstrapKey;
  }

  lemma ServerQueues(cipher: Cipher, key: Key, s: ConnState, data: Bytes, reliable: bool)
    requires ServerOk(cipher, key, s) && Application(data, reliable)
    ensures ServerOk(cipher, key, Queued(s, data, reliable))
    ensures Swapped(Queued(s, data, reliable), key) == Swapped(s, key)
  {
    hide FromServer, Application, BootstrapKey, Handshake;
  }

  lemma ClientFlushKeepsOk(cipher: Cipher, key: Key, w: World, now: nat)
    requires Sealed(cipher) && Ok(cipher, key, w)
    ensures Ok(cipher, key, Step(cipher, key, w, ClientFlushes(now)))
  {
    hide Updated, Emission, ClientOk, ServerOk, FromClient, FromServer;
    ClientFlushOk(cipher, key, w.client, now);
    forall b | b in Emission(cipher, w.client, now)
      ensures FromClient(cipher, b)
    {
      ClientEmission(cipher, key, w.client, now, b);
    }
  }

  lemma ServerFlushKeepsOk(cipher: Cipher, key: Key, w: World, now: nat)
    requires Sealed(cipher) && Ok(cipher, key, w) && w.server.Some?
    ensures Ok(cipher, key, Step(cipher, key, w, ServerFlushes(now)))
  {
    hide Updated, Emission, ClientOk, ServerOk, Pending, Swapped, FromClient, FromServer;
    PendingOrSwapped(cipher, key, w.server.value);
    ServerFlushOk(cipher, key, w.server.value, now);
    forall b | b in Emission(cipher, w.server.value, now)
      ensures FromServer(cipher, key, b)
    {
      ServerEmission(cipher, key, w.server.value, now, b);
    }
  }

  lemma KnownOk(cipher: Cipher, key: Key, w: World, now: nat)
    requires Ok(cipher, key, w)
    ensures var known := if w.server.Some? then w.server.value else Opened(now, key);
            ServerOk(cipher, key, known) && (Swapped(known, key) <==> ServerSwapped(w, key))
  {
    hide ClientOk, FromClient, FromServer, Opened, Pending, Swapped, BootstrapKey, ServerOk;
    OpenedOk(cipher, key, now);
    PendingOrSwapped(cipher, key, Opened(now, key));
  }

  lemma ServerReceiptKeepsOk(cipher: Cipher, key: Key, w: World, wire: Bytes, now: nat)
    requires Ok(cipher, key, w) && wire in w.toServer
    ensures Ok(cipher, key, Step(cipher, key, w, ServerReceives(wire, now)))
  {
    var known := if w.server.Some? then w.server.value else Opened(now, key);
    hide Handled, Opened, ClientOk, ServerOk, Swapped, FromClient, FromServer, BootstrapKey;
    KnownOk(cipher, key, w, now);
    ServerHears(cipher, key, known, wire, now);
  }

  lemma ClientReceiptKeepsOk(cipher: Cipher, key: Key, w: World, wire: Bytes, now: nat)
    requires key != BootstrapKey() && Ok(cipher, key, w) && wire in w.toClient
    ensures Ok(cipher, key, Step(cipher, key, w, ClientReceives(wire, now)))
  {
    hide Handled, ClientOk, ServerOk, Swapped, FromClient, FromServer, BootstrapKey;
    ClientHears(cipher, key, w.client, wire, now);
  }

  lemma StepKeepsOk(cipher: Cipher, key: Key, w: World, e: Event)
    requires Sealed(cipher) && key != BootstrapKey() && Ok(cipher, key, w) && Enabled(w, e)
    ensures Ok(cipher, key, Step(cipher, key, w, e))
  {
    hide Ok, Step, Sealed;
    match e
    case ClientSends(_, _) => SendsKeepOk(cipher, key, w, e);
    case ServerSends(_, _) => SendsKeepOk(cipher, key, w, e);
    case ClientFlushes(now) => ClientFlushKeepsOk(cipher, key, w, now);
    case ServerFlushes(now) => ServerFlushKeepsOk(cipher, key, w, now);
    case ServerReceives(wire, now) => ServerReceiptKeepsOk(cipher, key, w, wire, now);
    case ClientReceives(wire, now) => ClientReceiptKeepsOk(cipher, key, w, wire, now);
  }

  lemma PendingOrSwapped(cipher: Cipher, key: Key, s: ConnState)
    requires ServerOk(cipher, key, s)
    ensures Swapped(s, key) <==> s.swap.None?
    ensures Pending(s, key) <==> !Swapped(s, key)
  {}

  lemma {:induction false} RunKeepsOk(cipher: Cipher, key: Key, events: seq<Event>)
    requires Sealed(cipher) && key != BootstrapKey()
    ensures Ok(cipher, key, After(cipher, key, events))
  {
    if events != [] {
      hide Ok, Step;
      RunKeepsOk(cipher, key, events[..|events| - 1]);
      var w, e := After(cipher, key, events[..|events| - 1]), events[|events| - 1];
      if Enabled(w, e) {
        StepKeepsOk(cipher, key, w, e);
      }
    }
  }

  // ---------- main results ----------

  /** In every run the client holds the session key only if the server does, and neither holds a third key. */
  lemma KeysAgree(cipher: Cipher, key: Key, events: seq<Event>)
    requires Sealed(cipher) && key != BootstrapKey()
    ensures var w := After(cipher, key, events);
            && (w.client.key == BootstrapKey() || (w.client.key == key && w.server.Some? && w.server.value.key == key))
            && (w.server.Some? ==> w.server.value.key == BootstrapKey() || w.server.value.key == key)
            && (w.client.authenticated <==> w.client.key == key)
  {
    RunKeepsOk(cipher, key, events);
  }

  /** Duplicated and resent handshakes change nothing: each side replaces its key at most once. */
  lemma KeysChangeAtMostOnce(cipher: Cipher, key: Key, events: seq<Event>)
    requires Sealed(cipher) && key != BootstrapKey()
    ensures After(cipher, key, events).clientChanges <= After(cipher, key, events).serverChanges <= 1
  {
    RunKeepsOk(cipher, key, events);
  }

  /** Every handshake in flight or kept for resending is sealed under the bootstrap key and carries the session key. */
  lemma HandshakesAreBootstrapped(cipher: Cipher, key: Key, events: seq<Event>, wire: Bytes, k: Key)
    requires Sealed(cipher) && key != BootstrapKey()
    requires var w := After(cipher, key, events);
             || wire in w.toClient
             || wire in w.toServer
             || (w.server.Some? && exists i :: 0 <= i < |w.server.value.rel.unacked|
                                               && w.server.value.rel.unacked[i].data == wire)
             || (exists i :: 0 <= i < |w.client.rel.unacked| && w.client.rel.unacked[i].data == wire)
    requires OpensToHandshake(cipher, k, wire)
    ensures k == BootstrapKey() && FoundKey(cipher, k, wire) == key
  {
    RunKeepsOk(cipher, key, events);
  }

  /** A handshake changes the key of a peer that holds the key it was sealed under, and of no other. */
  lemma HandshakeIsTaken(cipher: Cipher, key: Key, s: ConnState, i: nat, client: ConnState, now: nat)
    requires Sealed(cipher) && i < |s.queue| && s.queue[i] == PendingSend(Handshake(key), true)
    requires WireOf(cipher, s, i).Some?
    ensures var (after, delivery) := Handled(cipher, client, WireOf(cipher, s, i).value, now);
            if client.key == s.key then after.key == key && delivery == Rekeyed(key)
            else after.key == client.key && delivery == Dropped
  {
    var sequence := SequenceOf(s, i);
    OpensExactly(cipher, s.key, Handshake(key), sequence, client.key, sequence);
    HandshakeCarriesKey(key);
    hide Handled, Sealed, SequenceOf, ReliableFrame, HandshakeShaped, SessionKey, Handshake, Incoming;
    ReliableHandled(cipher, client, HeaderOf(s, i), cipher.seal(s.key, Handshake(key), sequence).value, now);
  }

  lemma HandshakeCarriesKey(key: Key)
    ensures HandshakeShaped(Handshake(key)) && SessionKey(Handshake(key)) == key
  {}

  /** A payload is taken for a handshake if and only if it begins with one, whatever follows. */
  lemma HandshakeShapedExactly(payload: Bytes)
    ensures HandshakeShaped(payload) <==> exists key: Key, rest: Bytes :: payload == [1] + key + rest
    ensures HandshakeShaped(payload) ==> Handshake(SessionKey(payload)) <= payload
  {
    if HandshakeShaped(payload) {
      var key, rest := SessionKey(payload), payload[33..];
      assert payload == [1] + key + rest;
    }
  }

  /**
    So a reliable send of the application that begins so does not reach the application of a peer
    with the same key, but replaces that key.
   */
  lemma DisguisedSendRekeys(cipher: Cipher, c: ConnState, i: nat, key: Key, rest: Bytes, peer: ConnState, now: nat)
    requires Inverts(cipher) && i < |c.queue| && c.queue[i] == PendingSend([1] + key + rest, true)
    requires WireOf(cipher, c, i).Some? && peer.key == c.key
    ensures var (after, delivery) := Handled(cipher, peer, WireOf(cipher, c, i).value, now);
            delivery == Rekeyed(key) && after.key == key && after.authenticated
  {
    var payload, sequence := [1] + key + rest, SequenceOf(c, i);
    assert OpensSame(cipher, c.key, payload, sequence);
    assert payload[1..33] == key;
    hide Handled, Inverts, SequenceOf, ReliableFrame, Incoming;
    ReliableHandled(cipher, peer, HeaderOf(c, i), cipher.seal(c.key, payload, sequence).value, now);
  }

  /** Bytes that open under no nonce deliver nothing and leave the key as it is. */
  lemma NothingUnopenedIsDelivered(cipher: Cipher, c: ConnState, data: Bytes, now: nat)
    requires |data| >= 9 ==> forall n: nat :: cipher.open(c.key, data[9..], n).None?
    ensures var (after, delivery) := Handled(cipher, c, data, now);
            after.key == c.key && delivery == if data != [] && data[0] == 2 then Disconnected else Dropped
  {
    hide Incoming, DecodeHeader, U64At, HandshakeShaped, SessionKey;
  }
}
