/**
  Whether the handshake stays outstanding at the server until the client holds the session key. On
  the server's side it is reliable packet number 1, so what is cleared by mistake may be the handshake.

  The client is on the left and the server on the right; the server offers one session key before it
  does anything else, and neither side sends application data shaped as a handshake.
 */
module HandshakeLoss {
  import opened Numbers
  import opened Bits
  import opened Protocol
  import opened ReceiveWindow
  import opened Packet
  import opened Pipeline
  import opened Connection
  import opened Manager
  import opened Conservation
  import opened Refinement
  import Agreement = Handshake

  predicate Offered(l: Link) {
    l.right.sender.conn.handshakeSent
  }

  predicate Admissible(key: Key, l: Link, e: LinkEvent) {
    match e
    case Queue(side, data, reliable) => (reliable ==> !HandshakeShaped(data)) && (side == Ack.Right ==> Offered(l))
    case Offer(side, k) => side == Ack.Right && k == key && !Offered(l)
    case Update(side, _) => side == Ack.Right ==> Offered(l)
    case Deliver(w, _) => w.from == Ack.Left ==> Offered(l)
  }

  ghost predicate SessionRun(cipher: Cipher, born: nat, key: Key, events: seq<LinkEvent>) {
    events == []
    || (var l := LinkAfter(cipher, born, events[..|events| - 1]);
        && SessionRun(cipher, born, key, events[..|events| - 1])
        && Admissible(key, l, events[|events| - 1]) && LinkEnabled(l, events[|events| - 1]))
  }

  predicate BringsHandshake(e: LinkEvent) {
    e.Deliver? && e.wire.from == Ack.Right && e.wire.number == 1
  }

  /** The packet with the handshake has been delivered to the client. */
  predicate Heard(events: seq<LinkEvent>) {
    events != [] && (Heard(events[..|events| - 1]) || BringsHandshake(events[|events| - 1]))
  }

  // ---------- what every step keeps ----------

  predicate PlainQueue(queue: seq<PendingSend>) {
    forall i :: 0 <= i < |queue| ==> queue[i].reliable ==> !HandshakeShaped(queue[i].data)
  }

  /** Nothing has happened on the server's side. */
  predicate Untouched(s: Sender) {
    s.next == 1 && s.conn.queue == [] && s.conn.pendingBytes == 0 && s.conn.key == BootstrapKey() && s.conn.swap == None
  }

  /** The handshake is first in the queue. */
  predicate Waiting(s: Sender, key: Key) {
    && s.next == 1 && s.conn.key == BootstrapKey() && s.conn.swap == Some(key)
    && s.conn.queue != [] && s.conn.queue[0] == PendingSend(Handshake(key), true)
    && PlainQueue(s.conn.queue[1..])
  }

  /** The handshake has left and the server has changed to the session key. */
  predicate Flushed(s: Sender, key: Key) {
    s.next >= 2 && s.conn.key == key && s.conn.swap == None && PlainQueue(s.conn.queue)
  }

  predicate ServerOk(s: Sender, key: Key) {
    if !s.conn.handshakeSent then Untouched(s) else Waiting(s, key) || Flushed(s, key)
  }

  predicate ClientOk(s: Sender, key: Key) {
    (s.conn.key == BootstrapKey() || s.conn.key == key) && s.conn.swap == None && PlainQueue(s.conn.queue)
  }

  predicate WireOk(w: Wire, key: Key) {
    if w.from == Ack.Right && w.number == 1 then w.payload == Handshake(key) && w.key == BootstrapKey()
    else !HandshakeShaped(w.payload)
  }

  ghost predicate SessionOk(l: Link, key: Key) {
    ServerOk(l.right.sender, key) && ClientOk(l.left.sender, key) && forall w | w in l.wires :: WireOk(w, key)
  }

  lemma {:induction false} NewWireComesFrom(cipher: Cipher, side: Ack.Side, p: Peer, n: nat, w: Wire) returns (i: nat)
    requires n <= |p.sender.conn.queue| && w in NewWires(cipher, side, p, n)
    ensures i < n && p.sender.conn.queue[i].reliable && Emits(cipher, p.sender, i)
    ensures w == NewWire(cipher, side, p, i)
  {
    hide WireOf, NumberOf;
    if p.sender.conn.queue[n - 1].reliable && Emits(cipher, p.sender, n - 1) && w == NewWire(cipher, side, p, n - 1) {
      i := n - 1;
    } else {
      i := NewWireComesFrom(cipher, side, p, n - 1, w);
    }
  }

  lemma {:induction false} FirstIsReliable(queue: seq<PendingSend>, n: nat)
    requires 1 <= n <= |queue| && queue[0].reliable
    ensures Reliables(queue[..n]) >= 1
  {
    CountsOfPrefix(queue, n - 1);
    if n > 1 {
      FirstIsReliable(queue, n - 1);
    }
  }

  lemma NewWireOk(cipher: Cipher, side: Ack.Side, p: Peer, key: Key, w: Wire)
    requires w in NewWires(cipher, side, p, |p.sender.conn.queue|)
    requires if side == Ack.Right then Waiting(p.sender, key) || Flushed(p.sender, key) else ClientOk(p.sender, key)
    ensures WireOk(w, key)
  {
    var queue := p.sender.conn.queue;
    var i := NewWireComesFrom(cipher, side, p, |queue|, w);
    hide WireOf, HandshakeShaped, Reliables, NewWires;
    if side == Ack.Right && Waiting(p.sender, key) {
      if i > 0 {
        FirstIsReliable(queue, i);
        assert queue[1..][i - 1] == queue[i];
      } else {
        assert queue[..0] == [] && Reliables([]) == 0 by {
          assert queue[..0] == [];
        }
      }
    }
  }

  lemma PlainOneMore(queue: seq<PendingSend>, ps: PendingSend)
    requires PlainQueue(queue) && (ps.reliable ==> !HandshakeShaped(ps.data))
    ensures PlainQueue(queue + [ps])
  {}

  lemma QueueKeepsOk(cipher: Cipher, key: Key, s: Sender, data: Bytes, reliable: bool)
    requires reliable ==> !HandshakeShaped(data)
    ensures var after := Conservation.Step(cipher, s, Conservation.Send(data, reliable));
            && (ClientOk(s, key) ==> ClientOk(after, key))
            && (s.conn.handshakeSent && ServerOk(s, key) ==> after.conn.handshakeSent && ServerOk(after, key))
  {
    var ps := PendingSend(data, reliable);
    hide HandshakeShaped, PlainQueue;
    if PlainQueue(s.conn.queue) {
      PlainOneMore(s.conn.queue, ps);
    }
    if s.conn.queue != [] && PlainQueue(s.conn.queue[1..]) {
      PlainOneMore(s.conn.queue[1..], ps);
      assert (s.conn.queue + [ps])[1..] == s.conn.queue[1..] + [ps];
    }
  }

  lemma OfferKeepsOk(cipher: Cipher, key: Key, s: Sender)
    requires !s.conn.handshakeSent && ServerOk(s, key)
    ensures ServerOk(Conservation.Step(cipher, s, Conservation.Greet(key)), key)
  {
    assert |Handshake(key)| == 33;
    var after := Conservation.Step(cipher, s, Conservation.Greet(key));
    assert after.conn.queue == [PendingSend(Handshake(key), true)];
  }

  lemma ServerUpdateKeepsOk(cipher: Cipher, key: Key, s: Sender, now: nat)
    requires s.conn.handshakeSent && ServerOk(s, key)
    ensures var after := Conservation.Step(cipher, s, Conservation.Flush(now));
            after.conn.handshakeSent && Flushed(after, key)
  {
    hide Handshake, HandshakeShaped, Retransmitted, NewlyUnacked, SequenceOf, NonceOf, Reliables;
    if Waiting(s, key) {
      assert s.conn.queue[..|s.conn.queue|] == s.conn.queue;
      FirstIsReliable(s.conn.queue, |s.conn.queue|);
    }
  }

  lemma ClientUpdateKeepsOk(cipher: Cipher, key: Key, s: Sender, now: nat)
    requires ClientOk(s, key)
    ensures var after := Conservation.Step(cipher, s, Conservation.Flush(now));
            ClientOk(after, key) && after.conn.key == s.conn.key
  {
    hide HandshakeShaped, Retransmitted, NewlyUnacked, SequenceOf, NonceOf, NumberOf;
  }

  /** A delivered packet changes the key exactly when it is the handshake and the bootstrap key is still held. */
  lemma ArrivalChangesKey(cipher: Cipher, s: Sender, w: Wire, key: Key, now: nat)
    requires Sealed(cipher) && key != BootstrapKey() && IsSealed(cipher, w) && WireOk(w, key)
    requires s.conn.key == BootstrapKey() || s.conn.key == key
    ensures var before, after := s.conn, Conservation.Step(cipher, s, Conservation.Arrive(w.data, now)).conn;
            && after.queue == before.queue && after.swap == before.swap
            && after.pendingBytes == before.pendingBytes && after.handshakeSent == before.handshakeSent
            && after.key == (if w.from == Ack.Right && w.number == 1 then key else before.key)
  {
    hide Handled, HandshakeShaped, SessionKey, Handshake, Sealed, IsSealed, BootstrapKey, Kept,
      Agreement.OpensToHandshake, Agreement.FoundKey;
    Agreement.HearingOnlyRemoves(cipher, s.conn, w.data, now);
    SealedYieldsPayload(cipher, s.conn, w, now);
    Agreement.HandshakeCarriesKey(key);
    HearingKeepsAccount(cipher, s.conn, w.data, now);
  }

  lemma HearingKeepsAccount(cipher: Cipher, c: ConnState, data: Bytes, now: nat)
    ensures var after := Handled(cipher, c, data, now).0;
            after.handshakeSent == c.handshakeSent && after.pendingBytes == c.pendingBytes
  {
    hide DecodeHeader, HandshakeShaped, SessionKey, Incoming;
  }

  lemma ArrivalKeepsOk(cipher: Cipher, s: Sender, w: Wire, key: Key, now: nat)
    requires Sealed(cipher) && key != BootstrapKey() && IsSealed(cipher, w) && WireOk(w, key)
    ensures var after := Conservation.Step(cipher, s, Conservation.Arrive(w.data, now));
            && (w.from == Ack.Right && ClientOk(s, key) ==> ClientOk(after, key))
            && (w.from == Ack.Left && s.conn.handshakeSent && ServerOk(s, key) ==>
                  after.conn.handshakeSent && ServerOk(after, key))
  {
    hide Handled, HandshakeShaped, Handshake, Sealed, IsSealed, BootstrapKey, Kept, WireOk, PlainQueue;
    if s.conn.key == BootstrapKey() || s.conn.key == key {
      ArrivalChangesKey(cipher, s, w, key, now);
    }
  }

  /** The client's key after one step, given that the sender's step is not under way. */
  lemma {:induction false} SessionKeepsOk(cipher: Cipher, born: nat, key: Key, events: seq<LinkEvent>)
    requires Sealed(cipher) && key != BootstrapKey() && SessionRun(cipher, born, key, events)
    ensures var l := LinkAfter(cipher, born, events);
            && SessionOk(l, key)
            && l.left.sender.conn.key == (if Heard(events) then key else BootstrapKey())
  {
    if events != [] {
      var before, e := events[..|events| - 1], events[|events| - 1];
      SessionKeepsOk(cipher, born, key, before);
      WiresStaySealed(cipher, born, before);
      hide Sealed, LinkEnabled;
      StepKeepsSessionOk(cipher, LinkAfter(cipher, born, before), key, e);
      hide LinkStep, SessionOk;
    }
  }

  lemma StepKeepsSessionOk(cipher: Cipher, l: Link, key: Key, e: LinkEvent)
    requires Sealed(cipher) && key != BootstrapKey() && SessionOk(l, key)
    requires Admissible(key, l, e) && (e.Deliver? ==> e.wire in l.wires && IsSealed(cipher, e.wire))
    ensures SessionOk(LinkStep(cipher, l, e), key)
    ensures LinkStep(cipher, l, e).left.sender.conn.key ==
            if BringsHandshake(e) then key else l.left.sender.conn.key
  {
    var s := l.At(Actor(e)).sender;
    match e
    case Queue(_, data, reliable) => QueueKeepsOk(cipher, key, s, data, reliable);
    case Offer(_, _) => OfferKeepsOk(cipher, key, s);
    case Update(side, now) =>
      if side == Ack.Right {
        ServerUpdateKeepsOk(cipher, key, s, now);
      } else {
        ClientUpdateKeepsOk(cipher, key, s, now);
      }
      forall w | w in NewWires(cipher, side, l.At(side), |s.conn.queue|)
        ensures WireOk(w, key)
      {
        NewWireOk(cipher, side, l.At(side), key, w);
      }
      hide Conservation.Step, WireOk, NewWires;
    case Deliver(w, now) =>
      assert WireOk(w, key);
      ArrivalKeepsOk(cipher, s, w, key, now);
      if w.from == Ack.Right {
        ArrivalChangesKey(cipher, s, w, key, now);
      }
      hide Conservation.Step, WireOk;
  }

  // ---------- main results ----------

  /** The client holds the session key exactly when the packet with the handshake has been delivered to it. */
  lemma ClientHoldsKeyExactly(cipher: Cipher, born: nat, key: Key, events: seq<LinkEvent>)
    requires Sealed(cipher) && key != BootstrapKey() && SessionRun(cipher, born, key, events)
    ensures LinkAfter(cipher, born, events).left.sender.conn.key == if Heard(events) then key else BootstrapKey()
  {
    SessionKeepsOk(cipher, born, key, events);
  }

  /** The server hears a header in which its outstanding handshake is suspect. */
  predicate Threatens(l: Link, e: LinkEvent) {
    && e.Deliver? && e.wire.from == Ack.Left && CarriesHeader(e.wire.data)
    && 1 in Outstanding(l.right.sender) && Ack.Suspect(HeaderIn(e.wire.data), 1)
  }

  /** Such a header was heard before the client had heard the handshake. */
  predicate Threatened(cipher: Cipher, born: nat, events: seq<LinkEvent>) {
    events != []
    && (|| Threatened(cipher, born, events[..|events| - 1])
        || (!Heard(events[..|events| - 1])
            && Threatens(LinkAfter(cipher, born, events[..|events| - 1]), events[|events| - 1])))
  }

  lemma {:induction false} SessionRunIsRun(cipher: Cipher, born: nat, key: Key, events: seq<LinkEvent>)
    requires SessionRun(cipher, born, key, events)
    ensures LinkRun(cipher, born, events)
  {
    hide LinkEnabled, Admissible;
    if events != [] {
      SessionRunIsRun(cipher, born, key, events[..|events| - 1]);
    }
  }

  /** The client accepts packet 1 only by hearing it. */
  lemma {:induction false} AcceptedWasHeard(cipher: Cipher, born: nat, events: seq<LinkEvent>)
    requires 1 in LinkAfter(cipher, born, events).left.view.accepted
    ensures Heard(events)
  {
    var before := events[..|events| - 1];
    if 1 in LinkAfter(cipher, born, before).left.view.accepted {
      AcceptedWasHeard(cipher, born, before);
    }
    hide Conservation.Step, NewWires;
  }

  /** As long as the client has not accepted the handshake, a header clears it exactly when it is suspect in it. */
  lemma ClearedExactlyIfSuspect(cipher: Cipher, born: nat, events: seq<LinkEvent>, w: Wire, now: nat)
    requires LinkRun(cipher, born, events) && LinkEnabled(LinkAfter(cipher, born, events), Deliver(w, now))
    requires w.from == Ack.Left && 1 in Outstanding(LinkAfter(cipher, born, events).right.sender)
    requires 1 !in LinkAfter(cipher, born, events).left.view.accepted
    ensures CarriesHeader(w.data)
    ensures Acked(HeaderIn(w.data), 1) <==> Ack.Suspect(HeaderIn(w.data), 1)
  {
    var l := LinkAfter(cipher, born, events);
    TraceIsRun(cipher, born, events);
    LinkRunKeepsOk(cipher, born, events);
    SentAreFramed(l, w);
    Ack.RunKeepsOk(Ack.AsWritten, Trace(cipher, born, events));
    hide LinkRun, LinkAfter, Trace, Ack.Run, Ack.After, LinkOk, Acked, HeaderIn, Ack.EndpointOk, Ack.ClearedOk;
    var p := PacketOf(w);
    assert Ack.PacketOk(Abstract(l), p);
    hide Abstract;
    Ack.MisclearedExactly(p.header, p.seen, 1);
  }

  lemma OnlyArrivalsClear(cipher: Cipher, l: Link, e: LinkEvent)
    requires LinkOk(l) && !(e.Deliver? && e.wire.from == Ack.Left)
    ensures LinkStep(cipher, l, e).right.sender.cleared == l.right.sender.cleared
  {
    hide LinkOk, NewWires, Handled, Updated, NewlySent, NewNumbers, NewNonces, ResentNumbers;
  }

  lemma ArrivalClears(cipher: Cipher, l: Link, w: Wire, now: nat)
    requires LinkOk(l) && w.from == Ack.Left && CarriesHeader(w.data)
    ensures 1 in LinkStep(cipher, l, Deliver(w, now)).right.sender.cleared <==>
            1 in l.right.sender.cleared || (1 in Outstanding(l.right.sender) && Acked(HeaderIn(w.data), 1))
  {
    var s := l.right.sender;
    KeptLabelsRemaining(s.conn.rel.unacked, s.numbers, s.sent, HeaderIn(w.data));
    DeliveryChangesReceiver(cipher, l, w, now);
    hide LinkStep, LinkOk, Handled, HeaderIn, KeptNumbers, Acked, FramedAs, Tagged, Increasing;
  }

  /**
    The exact condition in every run: the server has given up the handshake while the client still
    lacks the session key if and only if it heard a header in which the handshake was suspect, and
    the handshake has never been delivered.
   */
  lemma {:induction false} HandshakeLostExactly(cipher: Cipher, born: nat, key: Key, events: seq<LinkEvent>)
    requires Sealed(cipher) && key != BootstrapKey() && SessionRun(cipher, born, key, events)
    ensures var l := LinkAfter(cipher, born, events);
            1 in l.right.sender.cleared && l.left.sender.conn.key != key <==>
            Threatened(cipher, born, events) && !Heard(events)
  {
    ClientHoldsKeyExactly(cipher, born, key, events);
    if !Heard(events) {
      UnheardClearedExactly(cipher, born, key, events);
    }
  }

  lemma {:induction false} UnheardClearedExactly(cipher: Cipher, born: nat, key: Key, events: seq<LinkEvent>)
    requires SessionRun(cipher, born, key, events) && !Heard(events)
    ensures 1 in LinkAfter(cipher, born, events).right.sender.cleared <==> Threatened(cipher, born, events)
  {
    if events != [] {
      var before, e := events[..|events| - 1], events[|events| - 1];
      var l := LinkAfter(cipher, born, before);
      SessionRunIsRun(cipher, born, key, before);
      LinkRunKeepsOk(cipher, born, before);
      hide LinkStep, LinkOk, Acked, Ack.Suspect, HeaderIn, LinkEnabled, Admissible;
      UnheardClearedExactly(cipher, born, key, before);
      if e.Deliver? && e.wire.from == Ack.Left {
        UnheardArrival(cipher, born, before, e.wire, e.now);
      } else {
        OnlyArrivalsClear(cipher, l, e);
      }
    }
  }

  lemma UnheardArrival(cipher: Cipher, born: nat, before: seq<LinkEvent>, w: Wire, now: nat)
    requires LinkRun(cipher, born, before) && LinkEnabled(LinkAfter(cipher, born, before), Deliver(w, now))
    requires w.from == Ack.Left && !Heard(before)
    ensures var l := LinkAfter(cipher, born, before);
            1 in LinkStep(cipher, l, Deliver(w, now)).right.sender.cleared <==>
            1 in l.right.sender.cleared || Threatens(l, Deliver(w, now))
  {
    var l := LinkAfter(cipher, born, before);
    LinkRunKeepsOk(cipher, born, before);
    SentAreFramed(l, w);
    ArrivalClears(cipher, l, w, now);
    if 1 in l.left.view.accepted {
      AcceptedWasHeard(cipher, born, before);
      assert false;
    }
    hide LinkStep, LinkOk, Acked, Ack.Suspect, HeaderIn, LinkRun, LinkAfter;
    if 1 in Outstanding(l.right.sender) {
      ClearedExactlyIfSuspect(cipher, born, before, w, now);
    }
  }

  /** A handshake given up is never sent again, so the client can only still hear a copy that is on its way. */
  lemma GivenUpForGood(cipher: Cipher, born: nat, key: Key, events: seq<LinkEvent>, more: seq<LinkEvent>)
    requires Sealed(cipher) && key != BootstrapKey() && SessionRun(cipher, born, key, events + more)
    requires 1 in LinkAfter(cipher, born, events).right.sender.cleared
    ensures var before, after := LinkAfter(cipher, born, events), LinkAfter(cipher, born, events + more);
            && 1 !in Outstanding(after.right.sender)
            && Times(after.right.sender.resends, 1) == Times(before.right.sender.resends, 1)
            && (after.left.sender.conn.key == key <==> Heard(events + more))
  {
    hide Sealed, LinkAfter, SessionRun, Heard, Times, Outstanding;
    Refinement.ClearedForGood(cipher, born, events, more, Ack.Right, 1);
    ClientHoldsKeyExactly(cipher, born, key, events + more);
  }

  /** In a run without suspect packets the handshake stays outstanding until the client holds the key. */
  lemma HandshakeStaysInCleanRuns(cipher: Cipher, born: nat, key: Key, events: seq<LinkEvent>)
    requires Sealed(cipher) && key != BootstrapKey() && SessionRun(cipher, born, key, events)
    requires CleanLinkRun(cipher, born, events)
    requires 1 in LinkAfter(cipher, born, events).right.sender.sent
    ensures var l := LinkAfter(cipher, born, events);
            1 in Outstanding(l.right.sender) || l.left.sender.conn.key == key
  {
    var l := LinkAfter(cipher, born, events);
    SessionRunIsRun(cipher, born, key, events);
    LinkRunKeepsOk(cipher, born, events);
    ClientHoldsKeyExactly(cipher, born, key, events);
    hide SessionRun, LinkRun, CleanLinkRun, Sealed, LinkAfter, Heard, FramedAs, Tagged, Increasing, WiresOk;
    if 1 !in Outstanding(l.right.sender) {
      CleanLinkIsSafe(cipher, born, events, Ack.Right, 1);
      AcceptedWasHeard(cipher, born, events);
    }
  }

  // ---------- a witness ----------

  const PING: Bytes := [9]

  function SomeKey(): Key {
    Repeated(7, KEY_SIZE)
  }

  /** The server has queued the handshake and one more packet. */
  function TwoQueued(): Link {
    var conn := NewState(true, 0).(
      queue := [PendingSend(Handshake(SomeKey()), true), PendingSend(PING, true)],
      pendingBytes := 34, handshakeSent := true, swap := Some(SomeKey()));
    Opening(0).(right := Peer(Conservation.Start(true, 0).(conn := conn), NOTHING))
  }

  lemma LabelledSeals(k: Key, p: Bytes, n: nat)
    ensures LABELLED.seal(k, p, n).Some? <==> InNonceRange(n)
  {}

  lemma LabelledEmits(p: Peer, i: nat)
    requires i < |p.sender.conn.queue| && p.sender.conn.queue[i].reliable
    ensures Emits(LABELLED, p.sender, i)
  {
    LabelledSeals(p.sender.conn.key, p.sender.conn.queue[i].data, SequenceOf(p.sender.conn, i));
    hide SequenceOf;
  }

  /** The packet behind the handshake. */
  function Second(): Wire {
    LabelledEmits(TwoQueued().right, 1);
    NewWire(LABELLED, Ack.Right, TwoQueued().right, 1)
  }

  lemma OneMoreEvent(cipher: Cipher, key: Key, events: seq<LinkEvent>, e: LinkEvent)
    requires SessionRun(cipher, 0, key, events)
    requires Admissible(key, LinkAfter(cipher, 0, events), e) && LinkEnabled(LinkAfter(cipher, 0, events), e)
    ensures SessionRun(cipher, 0, key, events + [e])
    ensures LinkAfter(cipher, 0, events + [e]) == LinkStep(cipher, LinkAfter(cipher, 0, events), e)
    ensures Heard(events + [e]) <==> Heard(events) || BringsHandshake(e)
    ensures Threatened(cipher, 0, events + [e]) <==>
            Threatened(cipher, 0, events) || (!Heard(events) && Threatens(LinkAfter(cipher, 0, events), e))
  {
    hide Admissible, LinkEnabled, LinkStep, Threatens;
    assert (events + [e])[..|events|] == events;
  }

  lemma NothingYet(cipher: Cipher, key: Key)
    ensures SessionRun(cipher, 0, key, []) && !Heard([]) && LinkAfter(cipher, 0, []) == Opening(0)
  {}

  lemma OfferThenPing(offer: LinkEvent, ping: LinkEvent)
    requires offer == Offer(Ack.Right, SomeKey()) && ping == Queue(Ack.Right, PING, true)
    ensures var l := LinkStep(LABELLED, Opening(0), offer);
            && Admissible(SomeKey(), Opening(0), offer) && LinkEnabled(Opening(0), offer)
            && Admissible(SomeKey(), l, ping) && LinkEnabled(l, ping)
            && LinkStep(LABELLED, l, ping) == TwoQueued()
  {
    var offered := WithHandshake(NewState(true, 0), SomeKey());
    assert |Handshake(SomeKey())| == 33;
    assert offered.queue == [PendingSend(Handshake(SomeKey()), true)];
  }

  lemma OfferingQueuesTwo() returns (events: seq<LinkEvent>)
    ensures SessionRun(LABELLED, 0, SomeKey(), events) && !Heard(events)
    ensures LinkAfter(LABELLED, 0, events) == TwoQueued()
  {
    hide SessionRun, Heard, LinkAfter, LinkStep, Opening, Admissible, LinkEnabled, TwoQueued;
    var offer, ping := Offer(Ack.Right, SomeKey()), Queue(Ack.Right, PING, true);
    NothingYet(LABELLED, SomeKey());
    OfferThenPing(offer, ping);
    OneMoreEvent(LABELLED, SomeKey(), [], offer);
    OneMoreEvent(LABELLED, SomeKey(), [] + [offer], ping);
    events := [] + [offer] + [ping];
  }

  lemma TwoNumbers()
    ensures var p := TwoQueued().right;
            && NumberOf(p.sender, 0) == 1 && NumberOf(p.sender, 1) == 2 && SequenceOf(p.sender.conn, 1) == 2
  {
    var queue := TwoQueued().right.sender.conn.queue;
    assert queue[..0] == [];
    hide Handshake, BootstrapKey, SomeKey;
    CountsOfPrefix(queue, 0);
  }

  lemma TwoLeave()
    ensures var p := TwoQueued().right;
            && NewNumbers(LABELLED, p.sender, 2) == [1, 2]
            && Second() in NewWires(LABELLED, Ack.Right, p, 2)
  {
    var p := TwoQueued().right;
    LabelledEmits(p, 0);
    LabelledEmits(p, 1);
    TwoNumbers();
    hide WireOf, Emits, Handshake, BootstrapKey, SomeKey, NumberOf;
    assert NewNumbers(LABELLED, p.sender, 1) == [1];
  }

  /** Both packets are in the network and outstanding. */
  lemma BothLeave(l: Link)
    requires l == LinkStep(LABELLED, TwoQueued(), Update(Ack.Right, 0))
    ensures Second() in l.wires && Second().from == Ack.Right && Second().number == 2
    ensures l.right.sender.numbers == [1, 2] && l.right.view == NOTHING
    ensures l.left == TwoQueued().left
  {
    TwoNumbers();
    TwoLeave();
    var p := TwoQueued().right;
    hide WireOf, Emits, NewNumbers, NewWires, NewlySent, NewNonces, Handshake, BootstrapKey, SomeKey, Updated, NumberOf;
    assert p.sender.numbers + [1, 2] == [1, 2];
  }

  lemma SecondIsFramed()
    ensures CarriesHeader(Second().data) && HeaderIn(Second().data).sequence == 2
  {
    var p := TwoQueued().right;
    TwoNumbers();
    LabelledEmits(p, 1);
    hide WireOf, Emits, NewNumbers, NewWires, Handshake, BootstrapKey, SomeKey, HeaderIn, SequenceOf, NumberOf;
    FrameCarriesNumber(LABELLED, p.sender, 1);
  }

  /** The client has accepted packet 2 and not packet 1, and has something to say. */
  predicate ReadyToReply(l: Link) {
    var c := l.left.sender.conn;
    && c.queue == [PendingSend(PING, true)] && c.rel.nextOutgoing == 1 && l.left.sender.next == 1
    && c.rel.window == Window(2, 1) && l.left.view == View(2, {2})
    && l.right.sender.numbers == [1, 2] && l.right.view == NOTHING
  }

  lemma SecondMovesWindow()
    ensures Received(Window(0, 0), 2) == Window(2, 1) && Accept(NOTHING, 2) == View(2, {2})
    ensures Bit32(1, 0) && !Bit32(1, 1)
  {
    assert Advance32(0, 2) == 1;
    AllBits32(0, 2);
  }

  /** The client has heard the second packet and has nothing to say yet. */
  predicate HasHeard(l: Link) {
    var c := l.left.sender.conn;
    && c.queue == [] && c.pendingBytes == 0 && c.rel.nextOutgoing == 1 && l.left.sender.next == 1
    && c.rel.window == Window(2, 1) && l.left.view == View(2, {2})
    && l.right.sender.numbers == [1, 2] && l.right.view == NOTHING
  }

  lemma SecondIsEnabled(l: Link)
    requires l == LinkStep(LABELLED, TwoQueued(), Update(Ack.Right, 0))
    ensures LinkEnabled(l, Deliver(Second(), 0))
  {
    BothLeave(l);
    hide LinkStep, Second, HeaderIn, BootstrapKey;
    assert PacketOf(Second()) in PacketsOf(l.wires);
  }

  lemma SecondIsHeard(l: Link, heard: Link)
    requires l == LinkStep(LABELLED, TwoQueued(), Update(Ack.Right, 0))
    requires heard == LinkStep(LABELLED, l, Deliver(Second(), 0))
    ensures HasHeard(heard)
  {
    BothLeave(l);
    SecondIsFramed();
    SecondMovesWindow();
    hide LinkStep, Second, Handled, HeaderIn, BootstrapKey, Received, Accept, CarriesHeader, Remaining, Samples,
      SampledAll, IsNew, Kept;
    DeliveryChangesReceiver(LABELLED, l, Second(), 0);
    ArrivalHears(LABELLED, l.left.sender.conn, Second().data, 0);
  }

  lemma HearingMakesReady(l: Link, l': Link)
    requires HasHeard(l) && l' == LinkStep(LABELLED, l, Queue(Ack.Left, PING, true))
    ensures ReadyToReply(l')
  {
    hide LinkStep;
    QueueingChangesQueue(l, PING);
    assert [] + [PendingSend(PING, true)] == [PendingSend(PING, true)];
  }

  lemma QueueingChangesQueue(l: Link, data: Bytes)
    ensures LinkStep(LABELLED, l, Queue(Ack.Left, data, true)) ==
            l.(left := Peer(Conservation.Step(LABELLED, l.left.sender, Conservation.Send(data, true)), l.left.view))
  {
    assert l.wires + {} == l.wires;
  }

  function Reply(l: Link): Wire
    requires ReadyToReply(l)
  {
    LabelledEmits(l.left, 0);
    NewWire(LABELLED, Ack.Left, l.left, 0)
  }

  lemma WrapOne()
    ensures Wrap16(1) == 1
  {}

  /** The reply acknowledges 2 and shows the gap at 1. */
  lemma ReplyIsFramed(l: Link)
    requires ReadyToReply(l)
    ensures var w := Reply(l);
            && w in NewWires(LABELLED, Ack.Left, l.left, 1)
            && w.from == Ack.Left && w.number == 1 && w.seen == View(2, {2})
            && CarriesHeader(w.data) && HeaderIn(w.data) == Header(1, 2, 1)
  {
    LabelledEmits(l.left, 0);
    var s := l.left.sender;
    assert s.conn.queue[..0] == [];
    assert SequenceOf(s.conn, 0) == 1 && NumberOf(s, 0) == 1;
    hide WireOf, HeaderIn, Emits, SequenceOf, NumberOf, Wrap16;
    assert Wrap16(1) == 1 by {
      WrapOne();
    }
    FrameCarriesNumber(LABELLED, s, 0);
  }

  lemma LeftUpdateFrame(l: Link)
    ensures var l' := LinkStep(LABELLED, l, Update(Ack.Left, 0));
            && l'.right == l.right
            && l'.wires == l.wires + NewWires(LABELLED, Ack.Left, l.left, |l.left.sender.conn.queue|)
  {
    hide NewWires, Conservation.Step;
  }

  lemma GapIsSuspect()
    ensures Ack.Suspect(Header(1, 2, 1), 1)
  {
    SecondMovesWindow();
  }

  lemma ReplyIsEnabled(l: Link, l': Link)
    requires ReadyToReply(l) && l' == LinkStep(LABELLED, l, Update(Ack.Left, 0))
    ensures LinkEnabled(l', Deliver(Reply(l), 0))
  {
    ReplyIsFramed(l);
    LeftUpdateFrame(l);
    var w := Reply(l);
    hide HeaderIn, NewWires, Reply, LinkStep, CarriesHeader, Ack.Enabled;
    assert PacketOf(w) in PacketsOf(l'.wires);
    assert EndpointOf(l'.right).outstanding == {1, 2};
    hide PacketsOf, Elements, Outstanding;
    FirstReplyIsEnabled(Abstract(l'), PacketOf(w));
  }

  lemma FirstReplyIsEnabled(net: Ack.Network, p: Ack.Packet)
    requires p in net.packets && p.from == Ack.Left && p.number == 1 && p.seen == View(2, {2})
    requires net.right.view == NOTHING && net.right.outstanding == {1, 2}
    ensures Ack.Enabled(net, Ack.Deliver(p))
  {}

  lemma ReplyThreatens(l: Link, l': Link)
    requires ReadyToReply(l) && l' == LinkStep(LABELLED, l, Update(Ack.Left, 0))
    ensures Threatens(l', Deliver(Reply(l), 0))
  {
    ReplyIsFramed(l);
    GapIsSuspect();
    LeftUpdateFrame(l);
    hide HeaderIn, NewWires, Reply, LinkStep, Ack.Suspect, CarriesHeader;
  }

  /**
    The witness: the packet behind the handshake arrives, the reply clears both, and the client is
    left with the bootstrap key by a server that has given the handshake up.
   */
  lemma HandshakeMayBeLost() returns (events: seq<LinkEvent>)
    ensures SessionRun(LABELLED, 0, SomeKey(), events)
    ensures var l := LinkAfter(LABELLED, 0, events);
            1 in l.right.sender.cleared && l.left.sender.conn.key == BootstrapKey()
  {
    var key := SomeKey();
    LabelledIsSealed();
    assert key[0] != BootstrapKey()[0];
    events := OfferingQueuesTwo();
    var flush, hear, ping := Update(Ack.Right, 0), Deliver(Second(), 0), Queue(Ack.Left, PING, true);
    var l1 := LinkStep(LABELLED, TwoQueued(), flush);
    var l2 := LinkStep(LABELLED, l1, hear);
    var l3 := LinkStep(LABELLED, l2, ping);
    BothLeave(l1);
    SecondIsEnabled(l1);
    SecondIsHeard(l1, l2);
    HearingMakesReady(l2, l3);
    var l4 := LinkStep(LABELLED, l3, Update(Ack.Left, 0));
    ReplyIsFramed(l3);
    ReplyIsEnabled(l3, l4);
    ReplyThreatens(l3, l4);
    StillOffered(l1, l2, l3, l4);
    hide LinkStep, LinkAfter, SessionRun, Threatened, Heard, LinkEnabled, Threatens, Reply, Second, ReadyToReply;
    OneMoreEvent(LABELLED, key, events, flush);
    OneMoreEvent(LABELLED, key, events + [flush], hear);
    OneMoreEvent(LABELLED, key, events + [flush] + [hear], ping);
    OneMoreEvent(LABELLED, key, events + [flush] + [hear] + [ping], Update(Ack.Left, 0));
    events := events + [flush] + [hear] + [ping] + [Update(Ack.Left, 0)];
    OneMoreEvent(LABELLED, key, events, Deliver(Reply(l3), 0));
    events := events + [Deliver(Reply(l3), 0)];
    HandshakeLostExactly(LABELLED, 0, key, events);
    ClientHoldsKeyExactly(LABELLED, 0, key, events);
  }

  lemma StillOffered(l1: Link, l2: Link, l3: Link, l4: Link)
    requires l1 == LinkStep(LABELLED, TwoQueued(), Update(Ack.Right, 0))
    requires Second().from == Ack.Right && l2 == LinkStep(LABELLED, l1, Deliver(Second(), 0))
    requires l3 == LinkStep(LABELLED, l2, Queue(Ack.Left, PING, true))
    requires l4 == LinkStep(LABELLED, l3, Update(Ack.Left, 0))
    ensures Offered(TwoQueued()) && Offered(l4) && !HandshakeShaped(PING)
  {
    hide Second, Handled, NewWires, Retransmitted, NewlyUnacked;
    assert l1.right.sender.conn.handshakeSent;
    assert l2.right == l1.right && l3.right == l2.right && l4.right == l3.right;
  }
}
