/**
  What a server does for a peer it has never heard of: whatever the first packet is, the session key
  leaves with the next flush, ahead of everything else, and a peer with the bootstrap key takes it.
 */
module Offer {
  import opened Numbers
  import opened Protocol
  import opened Packet
  import opened Pipeline
  import opened Connection
  import opened Manager
  import opened Handshake
  import Conservation
  import Refinement
  import Ack = AckProtocol

  /** The key is offered: it is the first thing to leave, as packet 1, and takes over with the flush. */
  predicate Offering(c: ConnState, key: Key) {
    && c.queue != [] && c.queue[0] == PendingSend([RELIABLE] + key, true)
    && c.rel.unacked == [] && c.rel.nextOutgoing == 1 && c.swap == Some(key)
  }

  lemma OpenedIsOffering(now: nat, key: Key)
    ensures Offering(Opened(now, key), key) && Opened(now, key).queue == [PendingSend([RELIABLE] + key, true)]
    ensures Opened(now, key).key == BootstrapKey() && Opened(now, key).isServer
  {
    assert |[RELIABLE] + key| == 33;
  }

  /** Hearing something does not withdraw an offer. */
  lemma HearingKeepsOffer(cipher: Cipher, c: ConnState, key: Key, data: Bytes, now: nat)
    requires Offering(c, key)
    ensures var (after, d) := Handled(cipher, c, data, now);
            Offering(after, key) && after.key == if d.Rekeyed? then d.key else c.key
  {
    HearingOnlyRemoves(cipher, c, data, now);
    Conservation.ArrivalHears(cipher, c, data, now);
    hide Handled, Remaining, Samples, SampledAll, Received, IsNew, OpensToHandshake, FoundKey;
  }

  lemma {:induction false} FirstWire(cipher: Cipher, c: ConnState, n: nat)
    requires 1 <= n <= |c.queue| && WireOf(cipher, c, 0).Some?
    ensures Wires(cipher, c, n) != [] && Wires(cipher, c, n)[0] == WireOf(cipher, c, 0).value
  {
    hide WireOf;
    if n == 1 {
      assert Wires(cipher, c, 0) == [];
    } else {
      FirstWire(cipher, c, n - 1);
    }
  }

  /** The flush of an offering connection begins with the offer, if it can be sealed. */
  lemma OfferLeaves(cipher: Cipher, c: ConnState, key: Key, now: nat)
    requires Offering(c, key) && cipher.seal(c.key, [RELIABLE] + key, 1).Some?
    ensures WireOf(cipher, c, 0).Some?
    ensures Emission(cipher, c, now) != [] && Emission(cipher, c, now)[0] == WireOf(cipher, c, 0).value
  {
    assert c.queue[..0] == [] && SequenceOf(c, 0) == 1;
    FirstWire(cipher, c, |c.queue|);
    assert ResentData(c.rel.unacked, now, c.rel.rtt.rto, |c.rel.unacked|) == [];
    hide WireOf, Wires, ResentData;
  }

  /** A peer takes the offer if and only if it holds the key the offer was sealed under. */
  lemma OfferIsTaken(cipher: Cipher, c: ConnState, key: Key, now: nat, client: ConnState, later: nat)
    requires Sealed(cipher) && Offering(c, key) && cipher.seal(c.key, [RELIABLE] + key, 1).Some?
    ensures Emission(cipher, c, now) != []
    ensures var (after, delivery) := Handled(cipher, client, Emission(cipher, c, now)[0], later);
            if client.key == c.key then after.key == key && delivery == Rekeyed(key)
            else after.key == client.key && delivery == Dropped
  {
    hide Sealed, Emission, Handled, WireOf;
    OfferLeaves(cipher, c, key, now);
    HandshakeIsTaken(cipher, key, c, 0, client, later);
  }

  /**
    The first packet of an unknown peer that is not a disconnect: its connection is opened and what
    leaves first with the next flush, whenever it can be sealed, is the session key. A peer with the
    key of the connection takes it, which is the bootstrap key unless the packet itself was a
    handshake; after the flush the connection holds the session key.
   */
  lemma StrangerIsOffered(cipher: Cipher, all: map<Addr, ConnState>, addr: Addr, data: Bytes, now: nat, key: Key,
                          flushed: nat, client: ConnState, later: nat)
    requires Sealed(cipher) && addr !in all && !Routed(cipher, all, addr, data, now, key).1.Disconnected?
    ensures var (after, d) := Routed(cipher, all, addr, data, now, key);
            && addr in after && after[addr].key == (if d.Rekeyed? then d.key else BootstrapKey())
            && Updated(cipher, after[addr], flushed).key == key
            && (cipher.seal(after[addr].key, [RELIABLE] + key, 1).Some? ==>
                  && Emission(cipher, after[addr], flushed) != []
                  && var (c, taken) := Handled(cipher, client, Emission(cipher, after[addr], flushed)[0], later);
                     if client.key == after[addr].key then c.key == key && taken == Rekeyed(key)
                     else c.key == client.key && taken == Dropped)
  {
    hide Sealed, Emission, Handled, Opened, NewlyUnacked, Retransmitted, SequenceOf, NonceOf;
    OpenedIsOffering(now, key);
    HearingKeepsOffer(cipher, Opened(now, key), key, data, now);
    var c := Routed(cipher, all, addr, data, now, key).0[addr];
    if cipher.seal(c.key, [RELIABLE] + key, 1).Some? {
      OfferIsTaken(cipher, c, key, flushed, client, later);
    }
  }

  /** The connection such a packet opens is the one the runs of `Conservation` and `Refinement` begin with. */
  lemma FirstReceiptIsOffer(cipher: Cipher, all: map<Addr, ConnState>, addr: Addr, data: Bytes, now: nat, key: Key)
    requires addr !in all && !Routed(cipher, all, addr, data, now, key).1.Disconnected?
    ensures var offered := Refinement.LinkAfter(cipher, now, [Refinement.Offer(Ack.Right, key)]).right.sender;
            && Opened(now, key) == offered.conn
            && Routed(cipher, all, addr, data, now, key).0[addr] ==
               Conservation.Step(cipher, offered, Conservation.Arrive(data, now)).conn
  {
    var events := [Refinement.Offer(Ack.Right, key)];
    assert events[..0] == [];
    hide Handled, Queued, Conservation.Kept;
    assert Refinement.LinkAfter(cipher, now, []) == Refinement.Opening(now);
  }

  // ---------- over runs ----------

  /** Every holder of the bootstrap key takes `b` for the offer of `key`. */
  ghost predicate Offers(cipher: Cipher, key: Key, b: Bytes) {
    forall client: ConnState, now: nat | client.key == BootstrapKey() ::
      Handled(cipher, client, b, now).1 == Rekeyed(key)
  }

  /** The server has the offer in front of its queue, or has sent it. */
  ghost predicate OfferStands(cipher: Cipher, key: Key, w: World) {
    w.server.Some? ==>
      if w.server.value.swap.Some? then Offering(w.server.value, key)
      else exists b :: b in w.toClient && Offers(cipher, key, b)
  }

  lemma QueueingKeepsOffer(c: ConnState, key: Key, data: Bytes, reliable: bool)
    ensures Queued(c, data, reliable).swap == c.swap
    ensures Offering(c, key) ==> Offering(Queued(c, data, reliable), key)
  {}

  lemma FlushKeepsOffer(cipher: Cipher, key: Key, w: World, now: nat)
    requires Sealed(cipher) && w.server.Some? && ServerOk(cipher, key, w.server.value)
    requires cipher.seal(BootstrapKey(), [RELIABLE] + key, 1).Some? && OfferStands(cipher, key, w)
    ensures OfferStands(cipher, key, Step(cipher, key, w, ServerFlushes(now)))
  {
    var s, after := w.server.value, Step(cipher, key, w, ServerFlushes(now));
    assert after.server.value.swap == None by {
      hide Emission, Retransmitted, NewlyUnacked, SequenceOf, NonceOf, Sealed, ServerOk, OfferStands;
    }
    PendingOrSwapped(cipher, key, s);
    hide Sealed, ServerQueueOk, FromServer, Emission, Updated, Handled, BootstrapKey;
    if s.swap.Some? {
      OfferLeaves(cipher, s, key, now);
      var b := Emission(cipher, s, now)[0];
      forall client: ConnState, at: nat | client.key == BootstrapKey()
        ensures Handled(cipher, client, b, at).1 == Rekeyed(key)
      {
        OfferIsTaken(cipher, s, key, now, client, at);
      }
      assert b in after.toClient && Offers(cipher, key, b);
    } else {
      var b :| b in w.toClient && Offers(cipher, key, b);
      assert b in after.toClient;
    }
  }

  lemma ReceiptKeepsOffer(cipher: Cipher, key: Key, w: World, wire: Bytes, now: nat)
    requires Ok(cipher, key, w) && wire in w.toServer && OfferStands(cipher, key, w)
    ensures OfferStands(cipher, key, Step(cipher, key, w, ServerReceives(wire, now)))
  {
    var known := if w.server.Some? then w.server.value else Opened(now, key);
    OpenedIsOffering(now, key);
    KnownOk(cipher, key, w, now);
    ServerHears(cipher, key, known, wire, now);
    HearingOnlyRemoves(cipher, known, wire, now);
    hide Handled, Opened, ServerOk, ClientOk, Swapped, FromServer, FromClient, Offers, OpensToHandshake, FoundKey;
    if known.swap.Some? {
      HearingKeepsOffer(cipher, known, key, wire, now);
    }
  }

  /**
    In every run the session key is offered: until the server has changed to it, the handshake stands
    in front of its queue, and from then on a packet is on its way that every holder of the bootstrap
    key takes for it.
   */
  lemma {:induction false} KeyIsOffered(cipher: Cipher, key: Key, events: seq<Event>)
    requires Sealed(cipher) && key != BootstrapKey() && cipher.seal(BootstrapKey(), [RELIABLE] + key, 1).Some?
    ensures var w := After(cipher, key, events);
            w.server.Some? ==>
              if w.server.value.key != key then
                w.server.value.queue != [] && w.server.value.queue[0] == PendingSend([RELIABLE] + key, true)
              else exists b :: b in w.toClient && Offers(cipher, key, b)
  {
    RunKeepsOffer(cipher, key, events);
    RunKeepsOk(cipher, key, events);
    var w := After(cipher, key, events);
    hide After, Sealed, FromServer, FromClient, ServerQueueOk, ClientQueueOk, Offers, BootstrapKey;
    if w.server.Some? {
      PendingOrSwapped(cipher, key, w.server.value);
    }
  }

  lemma {:induction false} RunKeepsOffer(cipher: Cipher, key: Key, events: seq<Event>)
    requires Sealed(cipher) && key != BootstrapKey() && cipher.seal(BootstrapKey(), [RELIABLE] + key, 1).Some?
    ensures OfferStands(cipher, key, After(cipher, key, events))
  {
    if events != [] {
      var before, e := events[..|events| - 1], events[|events| - 1];
      RunKeepsOffer(cipher, key, before);
      RunKeepsOk(cipher, key, before);
      hide Sealed, OfferStands, Step, Ok, BootstrapKey;
      var w := After(cipher, key, before);
      if Enabled(w, e) {
        StepKeepsOffer(cipher, key, w, e);
      }
    }
  }

  lemma StepKeepsOffer(cipher: Cipher, key: Key, w: World, e: Event)
    requires Sealed(cipher) && Ok(cipher, key, w) && Enabled(w, e) && OfferStands(cipher, key, w)
    requires cipher.seal(BootstrapKey(), [RELIABLE] + key, 1).Some?
    ensures OfferStands(cipher, key, Step(cipher, key, w, e))
  {
    match e
    case ServerFlushes(now) =>
      hide Sealed, Step, OfferStands, ServerOk;
      FlushKeepsOffer(cipher, key, w, now);
    case ServerReceives(wire, now) =>
      hide Sealed, Step, OfferStands;
      ReceiptKeepsOffer(cipher, key, w, wire, now);
    case ServerSends(data, reliable) =>
      hide Sealed, Ok, Offers, Queued, Offering;
      QueueingKeepsOffer(w.server.value, key, data, reliable);
    case _ =>
      hide Sealed, Ok, Offers, Offering, Handled, Updated, Emission, Queued;
  }
}
