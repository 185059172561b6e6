/**
  Two connections exchanging bytes refine the two endpoints of `AckProtocol`: whatever the queues,
  framing, sealing, retransmission and parsing do, the numbers behind the sequences move exactly as
  in that protocol, so what is proved there about runs holds of runs of whole connections.
 */
module Refinement {
  import opened Numbers
  import opened Protocol
  import opened ReceiveWindow
  import opened Packet
  import opened Pipeline
  import opened Connection
  import opened Manager
  import opened Conservation
  import Ack = AckProtocol

  /** A connection and the numbers it has accepted. */
  datatype Peer = Peer(sender: Sender, view: View)

  /**
    A reliable packet in the network. Its bytes travel; its number, the sender's view and what was
    sealed under which key do not.
   */
  datatype Wire = Wire(from: Ack.Side, number: nat, data: Bytes, seen: View, payload: Bytes, key: Key)

  datatype Link = Link(left: Peer, right: Peer, wires: set<Wire>) {
    function At(side: Ack.Side): Peer {
      if side == Ack.Left then left else right
    }

    function With(side: Ack.Side, p: Peer): Link {
      if side == Ack.Left then this.(left := p) else this.(right := p)
    }
  }

  datatype LinkEvent =
    | Queue(side: Ack.Side, data: Bytes, reliable: bool)
    | Offer(side: Ack.Side, key: Key)
    | Update(side: Ack.Side, now: nat)
    | Deliver(wire: Wire, now: nat)

  /** A client on the left, a server on the right. */
  function Opening(born: nat): Link {
    Link(Peer(Conservation.Start(false, born), NOTHING), Peer(Conservation.Start(true, born), NOTHING), {})
  }

  /** What the first `n` queued items put into the network. */
  function NewWires(cipher: Cipher, side: Ack.Side, p: Peer, n: nat): set<Wire>
    requires n <= |p.sender.conn.queue|
  {
    if n == 0 then {}
    else if p.sender.conn.queue[n - 1].reliable && Emits(cipher, p.sender, n - 1) then
      NewWires(cipher, side, p, n - 1) + {NewWire(cipher, side, p, n - 1)}
    else NewWires(cipher, side, p, n - 1)
  }

  function NewWire(cipher: Cipher, side: Ack.Side, p: Peer, i: nat): Wire
    requires i < |p.sender.conn.queue| && Emits(cipher, p.sender, i)
  {
    var c := p.sender.conn;
    Wire(side, NumberOf(p.sender, i), WireOf(cipher, c, i).value, p.view, c.queue[i].data, c.key)
  }

  /** The step of one connection that an event is. */
  function Local(e: LinkEvent): Conservation.Event {
    match e
    case Queue(_, data, reliable) => Conservation.Send(data, reliable)
    case Offer(_, key) => Conservation.Greet(key)
    case Update(_, now) => Conservation.Flush(now)
    case Deliver(w, now) => Conservation.Arrive(w.data, now)
  }

  function Actor(e: LinkEvent): Ack.Side {
    if e.Deliver? then Ack.Other(e.wire.from) else e.side
  }

  function LinkStep(cipher: Cipher, l: Link, e: LinkEvent): Link {
    var p := l.At(Actor(e));
    l.With(Actor(e), Peer(Conservation.Step(cipher, p.sender, Local(e)),
                          if e.Deliver? then Accept(p.view, e.wire.number) else p.view))
     .(wires := l.wires + if e.Update? then NewWires(cipher, e.side, p, |p.sender.conn.queue|) else {})
  }

  function LinkAfter(cipher: Cipher, born: nat, events: seq<LinkEvent>): Link {
    if events == [] then Opening(born)
    else LinkStep(cipher, LinkAfter(cipher, born, events[..|events| - 1]), events[|events| - 1])
  }

  // ---------- the abstraction ----------

  function EndpointOf(p: Peer): Ack.Endpoint {
    Ack.Endpoint(p.sender.next, p.sender.sent.Keys, Outstanding(p.sender), p.sender.conn.rel.window, p.view)
  }

  function PacketOf(w: Wire): Ack.Packet {
    Ack.Packet(w.from, w.number, if CarriesHeader(w.data) then HeaderIn(w.data) else Header(0, 0, 0), w.seen)
  }

  function PacketsOf(wires: set<Wire>): set<Ack.Packet> {
    set w | w in wires :: PacketOf(w)
  }

  function Abstract(l: Link): Ack.Network {
    Ack.Network(EndpointOf(l.left), EndpointOf(l.right), PacketsOf(l.wires))
  }

  /** Only packets of the network are delivered, and their numbers lie within half the range. */
  ghost predicate LinkEnabled(l: Link, e: LinkEvent) {
    e.Deliver? ==> e.wire in l.wires && Ack.Enabled(Abstract(l), Ack.Deliver(PacketOf(e.wire)))
  }

  ghost predicate LinkRun(cipher: Cipher, born: nat, events: seq<LinkEvent>) {
    events == []
    || (LinkRun(cipher, born, events[..|events| - 1])
        && LinkEnabled(LinkAfter(cipher, born, events[..|events| - 1]), events[|events| - 1]))
  }

  /** The protocol events that flushing the first `n` items amounts to. */
  function Sends(cipher: Cipher, side: Ack.Side, s: Sender, n: nat): seq<Ack.Event>
    requires n <= |s.conn.queue|
  {
    if n == 0 then []
    else if !s.conn.queue[n - 1].reliable then Sends(cipher, side, s, n - 1)
    else Sends(cipher, side, s, n - 1) + [if Emits(cipher, s, n - 1) then Ack.Send(side) else Ack.FailedSend(side)]
  }

  function EventsOf(cipher: Cipher, l: Link, e: LinkEvent): seq<Ack.Event> {
    match e
    case Update(side, _) => Sends(cipher, side, l.At(side).sender, |l.At(side).sender.conn.queue|)
    case Deliver(w, _) => [Ack.Deliver(PacketOf(w))]
    case Queue(_, _, _) => []
    case Offer(_, _) => []
  }

  function Trace(cipher: Cipher, born: nat, events: seq<LinkEvent>): seq<Ack.Event> {
    if events == [] then []
    else
      var before := events[..|events| - 1];
      Trace(cipher, born, before) + EventsOf(cipher, LinkAfter(cipher, born, before), events[|events| - 1])
  }

  // ---------- what every step keeps ----------

  /** Both books balance, and the network holds what they say was sent. */
  ghost predicate LinkOk(l: Link) {
    && Conserved(l.left.sender) && Conserved(l.right.sender)
    && WiresOk(l.wires, Ack.Left, l.left.sender.sent)
    && WiresOk(l.wires, Ack.Right, l.right.sender.sent)
  }

  /** The packets from `side` are what it sent, and all of it. */
  ghost predicate WiresOk(wires: set<Wire>, side: Ack.Side, sent: map<nat, Bytes>) {
    && (forall w | w in wires && w.from == side :: w.number in sent && sent[w.number] == w.data)
    && (forall n | n in sent :: OnWire(wires, side, n, sent[n]))
  }

  ghost predicate OnWire(wires: set<Wire>, side: Ack.Side, n: nat, data: Bytes) {
    exists w :: w in wires && w.from == side && w.number == n && w.data == data
  }

  /** The new packets of a flush are what `sent` gains. */
  lemma {:induction false} NewWiresAreSent(cipher: Cipher, side: Ack.Side, p: Peer, n: nat)
    requires Conserved(p.sender) && n <= |p.sender.conn.queue|
    ensures forall w | w in NewWires(cipher, side, p, n) ::
              && w.from == side && w.number in NewlySent(cipher, p.sender, n)
              && NewlySent(cipher, p.sender, n)[w.number] == w.data
    ensures forall m | m in NewlySent(cipher, p.sender, n) && m !in p.sender.sent ::
              OnWire(NewWires(cipher, side, p, n), side, m, NewlySent(cipher, p.sender, n)[m])
  {
    hide WireOf, FramedAs, HeaderIn, NumberOf, Increasing, Tagged, Outstanding;
    if n > 0 {
      NewWiresAreSent(cipher, side, p, n - 1);
      ItemsKeepNumbers(cipher, p.sender, n - 1);
      ItemsKeepSent(cipher, p.sender, n - 1);
      if p.sender.conn.queue[n - 1].reliable && Emits(cipher, p.sender, n - 1) {
        assert NewWire(cipher, side, p, n - 1) in NewWires(cipher, side, p, n);
      }
    }
  }

  lemma WiresOfMore(wires: set<Wire>, newer: set<Wire>, side: Ack.Side, was: map<nat, Bytes>, sent: map<nat, Bytes>)
    requires WiresOk(wires, side, was)
    requires forall n | n in was :: n in sent && sent[n] == was[n]
    requires forall w | w in newer && w.from == side :: w.number in sent && sent[w.number] == w.data
    requires forall n | n in sent && n !in was :: OnWire(newer, side, n, sent[n])
    ensures WiresOk(wires + newer, side, sent)
  {
    forall n | n in sent
      ensures OnWire(wires + newer, side, n, sent[n])
    {
      assert n in was ==> OnWire(wires, side, n, was[n]);
    }
  }

  lemma LocalStepKeepsLinkOk(cipher: Cipher, l: Link, e: LinkEvent)
    requires LinkOk(l) && !e.Update?
    ensures LinkOk(LinkStep(cipher, l, e))
  {
    var p := l.At(Actor(e)).sender;
    StepKeepsConserved(cipher, p, Local(e));
    LocalStepSendsNothing(cipher, p, Local(e));
    var after := LinkStep(cipher, l, e);
    assert after.wires == l.wires;
    hide Conserved, Conservation.Step, WiresOk, Local;
  }

  lemma LocalStepSendsNothing(cipher: Cipher, s: Sender, e: Conservation.Event)
    requires !e.Flush?
    ensures Conservation.Step(cipher, s, e).sent == s.sent
  {
    hide Handled, Kept;
  }

  lemma UpdateChangesSender(cipher: Cipher, l: Link, side: Ack.Side, now: nat)
    ensures var p := l.At(side);
            LinkStep(cipher, l, Update(side, now)) ==
            l.With(side, Peer(Conservation.Step(cipher, p.sender, Conservation.Flush(now)), p.view))
             .(wires := l.wires + NewWires(cipher, side, p, |p.sender.conn.queue|))
  {
    hide Conservation.Step, NewWires;
  }

  lemma UpdateSends(cipher: Cipher, s: Sender, now: nat)
    ensures Conservation.Step(cipher, s, Conservation.Flush(now)).sent == NewlySent(cipher, s, |s.conn.queue|)
  {
    hide Updated, NewlySent, NewNumbers, NewNonces, ResentNumbers, NumberOf;
  }

  lemma UpdateKeepsLinkOk(cipher: Cipher, l: Link, side: Ack.Side, now: nat)
    requires LinkOk(l)
    ensures LinkOk(LinkStep(cipher, l, Update(side, now)))
  {
    var p, other := l.At(side), Ack.Other(side);
    var n := |p.sender.conn.queue|;
    var newer := NewWires(cipher, side, p, n);
    StepKeepsConserved(cipher, p.sender, Conservation.Flush(now));
    ItemsKeepSent(cipher, p.sender, n);
    NewWiresAreSent(cipher, side, p, n);
    UpdateSends(cipher, p.sender, now);
    UpdateChangesSender(cipher, l, side, now);
    hide LinkStep, Conservation.Step, NewWires, NewlySent, NewNumbers, FramedAs, HeaderIn, Tagged, Increasing, OnWire,
      Outstanding;
    WiresOfMore(l.wires, newer, side, p.sender.sent, NewlySent(cipher, p.sender, n));
    WiresOfMore(l.wires, newer, other, l.At(other).sender.sent, l.At(other).sender.sent);
    hide Conserved, WiresOk;
  }

  lemma {:induction false} LinkRunKeepsOk(cipher: Cipher, born: nat, events: seq<LinkEvent>)
    ensures LinkOk(LinkAfter(cipher, born, events))
  {
    if events != [] {
      var before, e := events[..|events| - 1], events[|events| - 1];
      LinkRunKeepsOk(cipher, born, before);
      hide LinkOk, LinkStep;
      if e.Update? {
        UpdateKeepsLinkOk(cipher, LinkAfter(cipher, born, before), e.side, e.now);
      } else {
        LocalStepKeepsLinkOk(cipher, LinkAfter(cipher, born, before), e);
      }
    }
  }

  // ---------- the refinement ----------

  /** The protocol state when the first `n` items of the queue of `side` have been framed. */
  function Midway(cipher: Cipher, l: Link, side: Ack.Side, n: nat): Ack.Network
    requires n <= |l.At(side).sender.conn.queue|
  {
    var p := l.At(side);
    Abstract(l)
      .With(side, Ack.Endpoint(NumberOf(p.sender, n), NewlySent(cipher, p.sender, n).Keys,
                               Elements(p.sender.numbers + NewNumbers(cipher, p.sender, n)),
                               p.sender.conn.rel.window, p.view))
      .(packets := PacketsOf(l.wires + NewWires(cipher, side, p, n)))
  }

  lemma PacketsOfOneMore(wires: set<Wire>, w: Wire)
    ensures PacketsOf(wires + {w}) == PacketsOf(wires) + {PacketOf(w)}
  {}

  /** The frame of an item carries the header the protocol puts into the packet of that number. */
  lemma NewWireIsNextPacket(cipher: Cipher, l: Link, side: Ack.Side, i: nat)
    requires LinkOk(l) && i < |l.At(side).sender.conn.queue|
    requires l.At(side).sender.conn.queue[i].reliable && Emits(cipher, l.At(side).sender, i)
    ensures PacketOf(NewWire(cipher, side, l.At(side), i)) == Ack.NextPacket(Midway(cipher, l, side, i), side)
  {
    var s := l.At(side).sender;
    SequenceIsNumber(s, i);
    FrameCarriesNumber(cipher, s, i);
    hide WireOf, HeaderIn, NewWires, NewlySent, NewNumbers, NumberOf, SequenceOf, PacketsOf, Wrap16, Conserved;
  }

  lemma ElementsOfOneMore(a: seq<nat>, b: seq<nat>, n: nat)
    ensures Elements(a + (b + [n])) == Elements(a + b) + {n}
  {
    assert a + (b + [n]) == a + b + [n];
  }

  lemma KeysOfOneMore(sent: map<nat, Bytes>, n: nat, data: Bytes)
    ensures sent[n := data].Keys == sent.Keys + {n}
  {}

  lemma ItemIsSend(cipher: Cipher, l: Link, side: Ack.Side, i: nat)
    requires LinkOk(l) && i < |l.At(side).sender.conn.queue|
    ensures var s := l.At(side).sender;
            Midway(cipher, l, side, i + 1) ==
            if !s.conn.queue[i].reliable then Midway(cipher, l, side, i)
            else Ack.Step(Ack.AsWritten, Midway(cipher, l, side, i),
                          if Emits(cipher, s, i) then Ack.Send(side) else Ack.FailedSend(side))
  {
    var p := l.At(side);
    hide WireOf, PacketOf, PacketsOf, LinkOk, Elements;
    CountsOfPrefix(p.sender.conn.queue, i);
    hide Reliables;
    if p.sender.conn.queue[i].reliable && Emits(cipher, p.sender, i) {
      NewWireIsNextPacket(cipher, l, side, i);
      var n, w := NumberOf(p.sender, i), NewWire(cipher, side, p, i);
      PacketsOfOneMore(l.wires + NewWires(cipher, side, p, i), w);
      assert l.wires + NewWires(cipher, side, p, i + 1) == l.wires + NewWires(cipher, side, p, i) + {w};
      ElementsOfOneMore(p.sender.numbers, NewNumbers(cipher, p.sender, i), n);
      KeysOfOneMore(NewlySent(cipher, p.sender, i), n, w.data);
    } else {
      assert NewNumbers(cipher, p.sender, i + 1) == NewNumbers(cipher, p.sender, i);
    }
  }

  /** The protocol is at `net` after the run `events`. */
  ghost predicate Reaches(events: seq<Ack.Event>, net: Ack.Network) {
    Ack.Run(Ack.AsWritten, events) && Ack.After(Ack.AsWritten, events) == net
  }

  lemma ReachesOneMore(events: seq<Ack.Event>, net: Ack.Network, e: Ack.Event)
    requires Reaches(events, net) && Ack.Enabled(net, e)
    ensures Reaches(events + [e], Ack.Step(Ack.AsWritten, net, e))
  {
    hide Ack.Step, Ack.Enabled;
    assert (events + [e])[..|events|] == events;
  }

  /** One more item of the queue, given where the ones before it have led. */
  lemma ItemReaches(cipher: Cipher, l: Link, side: Ack.Side, i: nat, events: seq<Ack.Event>)
    requires LinkOk(l) && i < |l.At(side).sender.conn.queue| && Reaches(events, Midway(cipher, l, side, i))
    ensures var s := l.At(side).sender;
            var more := if !s.conn.queue[i].reliable then []
                        else [if Emits(cipher, s, i) then Ack.Send(side) else Ack.FailedSend(side)];
            Reaches(events + more, Midway(cipher, l, side, i + 1))
  {
    hide Midway, LinkOk, Ack.Step, Emits, Reaches;
    var s := l.At(side).sender;
    ItemIsSend(cipher, l, side, i);
    if s.conn.queue[i].reliable {
      var e := if Emits(cipher, s, i) then Ack.Send(side) else Ack.FailedSend(side);
      ReachesOneMore(events, Midway(cipher, l, side, i), e);
    } else {
      assert events + [] == events;
    }
  }

  /** Flushing the first `n` items is running their sends. */
  lemma {:induction false} UpdateIsSends(cipher: Cipher, l: Link, side: Ack.Side, n: nat, before: seq<Ack.Event>)
    requires LinkOk(l) && n <= |l.At(side).sender.conn.queue|
    requires Reaches(before, Abstract(l))
    ensures Reaches(before + Sends(cipher, side, l.At(side).sender, n), Midway(cipher, l, side, n))
  {
    var s := l.At(side).sender;
    hide Midway, LinkOk, Emits, Abstract, Reaches;
    if n == 0 {
      NothingSent(cipher, l, side);
      assert before + Sends(cipher, side, s, 0) == before;
    } else {
      UpdateIsSends(cipher, l, side, n - 1, before);
      ItemReaches(cipher, l, side, n - 1, before + Sends(cipher, side, s, n - 1));
      SendsOneMore(cipher, side, s, n - 1, before);
    }
  }

  lemma SendsOneMore(cipher: Cipher, side: Ack.Side, s: Sender, i: nat, before: seq<Ack.Event>)
    requires i < |s.conn.queue|
    ensures var more := if !s.conn.queue[i].reliable then []
                        else [if Emits(cipher, s, i) then Ack.Send(side) else Ack.FailedSend(side)];
            before + Sends(cipher, side, s, i + 1) == before + Sends(cipher, side, s, i) + more
  {
    hide Emits;
  }

  lemma NothingSent(cipher: Cipher, l: Link, side: Ack.Side)
    ensures Midway(cipher, l, side, 0) == Abstract(l)
  {
    var p := l.At(side);
    assert p.sender.conn.queue[..0] == [] && p.sender.numbers + [] == p.sender.numbers;
    assert l.wires + {} == l.wires;
    hide Elements, PacketsOf;
  }

  /** The whole queue framed is the state after the update. */
  lemma UpdateEndsMidway(cipher: Cipher, l: Link, e: LinkEvent)
    requires e.Update?
    ensures var n := |l.At(e.side).sender.conn.queue|;
            Midway(cipher, l, e.side, n) == Abstract(LinkStep(cipher, l, e))
  {
    hide Elements, PacketsOf, NewWires, NewlySent, NewNumbers, NumberOf, SequenceOf, NonceOf, NewNonces, NewlyUnacked;
  }

  /** What the bytes of a packet do to the endpoint that hears them. */
  lemma EndpointHears(cipher: Cipher, p: Peer, w: Wire, now: nat)
    requires Conserved(p.sender) && CarriesHeader(w.data)
    ensures EndpointOf(Peer(Arrived(cipher, p.sender, w.data, now), Accept(p.view, w.number))) ==
            Ack.Hears(Ack.AsWritten, EndpointOf(p), PacketOf(w))
  {
    var s := p.sender;
    ArrivalHears(cipher, s.conn, w.data, now);
    KeptLabelsRemaining(s.conn.rel.unacked, s.numbers, s.sent, HeaderIn(w.data));
    hide Acked, KeptNumbers, Handled, HeaderIn, Received, Remaining, Samples, SampledAll, IsNew, Accept, Wrap16,
      Tagged, Increasing, FramedAs;
    var after := Peer(Arrived(cipher, s, w.data, now), Accept(p.view, w.number));
    assert EndpointOf(after).outstanding == Ack.Hears(Ack.AsWritten, EndpointOf(p), PacketOf(w)).outstanding;
  }

  lemma DeliveryChangesReceiver(cipher: Cipher, l: Link, w: Wire, now: nat)
    ensures var to := Ack.Other(w.from);
            LinkStep(cipher, l, Deliver(w, now)) ==
            l.With(to, Peer(Arrived(cipher, l.At(to).sender, w.data, now), Accept(l.At(to).view, w.number)))
  {
    hide Arrived, Accept;
  }

  lemma AbstractWith(l: Link, side: Ack.Side, p: Peer)
    ensures Abstract(l.With(side, p)) == Abstract(l).With(side, EndpointOf(p))
    ensures Abstract(l).At(side) == EndpointOf(l.At(side))
  {
    hide EndpointOf, PacketsOf;
  }

  lemma ArrivalIsDelivery(cipher: Cipher, l: Link, w: Wire, now: nat)
    requires LinkOk(l) && LinkEnabled(l, Deliver(w, now))
    ensures Abstract(LinkStep(cipher, l, Deliver(w, now))) ==
            Ack.Step(Ack.AsWritten, Abstract(l), Ack.Deliver(PacketOf(w)))
  {
    var to := Ack.Other(w.from);
    SentAreFramed(l, w);
    assert Conserved(l.At(to).sender);
    var after := Peer(Arrived(cipher, l.At(to).sender, w.data, now), Accept(l.At(to).view, w.number));
    hide Arrived, Ack.Hears, PacketOf, Accept, Conserved, EndpointOf, Abstract, LinkOk, LinkEnabled, LinkStep;
    DeliveryChangesReceiver(cipher, l, w, now);
    EndpointHears(cipher, l.At(to), w, now);
    AbstractWith(l, to, after);
  }

  /** A packet of the network is a frame with the low bits of its number. */
  lemma SentAreFramed(l: Link, w: Wire)
    requires LinkOk(l) && w in l.wires
    ensures FramedAs(w.data, w.number)
  {
    hide FramedAs, Tagged, Increasing, OnWire;
    assert w.from == Ack.Left || w.from == Ack.Right;
  }

  lemma {:induction false} TraceIsRun(cipher: Cipher, born: nat, events: seq<LinkEvent>)
    requires LinkRun(cipher, born, events)
    ensures Reaches(Trace(cipher, born, events), Abstract(LinkAfter(cipher, born, events)))
  {
    if events == [] {
      assert EndpointOf(Opening(born).left) == EndpointOf(Opening(born).right) == Ack.IDLE;
    } else {
      var before, e := events[..|events| - 1], events[|events| - 1];
      TraceIsRun(cipher, born, before);
      LinkRunKeepsOk(cipher, born, before);
      hide LinkOk, LinkRun, Reaches, Sends;
      StepIsTrace(cipher, LinkAfter(cipher, born, before), e, Trace(cipher, born, before));
      hide LinkStep, Abstract, EventsOf;
    }
  }

  lemma QueueingIsNothing(cipher: Cipher, l: Link, e: LinkEvent)
    requires e.Queue? || e.Offer?
    ensures Abstract(LinkStep(cipher, l, e)) == Abstract(l)
  {
    hide PacketsOf, Elements;
    assert l.wires + {} == l.wires;
  }

  lemma StepIsTrace(cipher: Cipher, l: Link, e: LinkEvent, trace: seq<Ack.Event>)
    requires LinkOk(l) && LinkEnabled(l, e)
    requires Reaches(trace, Abstract(l))
    ensures Reaches(trace + EventsOf(cipher, l, e), Abstract(LinkStep(cipher, l, e)))
  {
    hide LinkOk, Reaches, Sends, Midway;
    match e
    case Update(side, _) =>
      UpdateIsSends(cipher, l, side, |l.At(side).sender.conn.queue|, trace);
      UpdateEndsMidway(cipher, l, e);
      hide Abstract, LinkStep;
    case Deliver(w, now) =>
      ArrivalIsDelivery(cipher, l, w, now);
      ReachesOneMore(trace, Abstract(l), Ack.Deliver(PacketOf(w)));
      hide Abstract, LinkStep, Ack.Step;
    case Queue(_, _, _) =>
      QueueingIsNothing(cipher, l, e);
      assert trace + [] == trace;
    case Offer(_, _) =>
      QueueingIsNothing(cipher, l, e);
      assert trace + [] == trace;
  }

  // ---------- main results ----------

  /**
    Two connections that exchange bytes over a network that loses, duplicates and reorders them:
    a packet either side has cleared was accepted by the other, or its successor was.
   */
  lemma ClearedWasReceivedOrNext(cipher: Cipher, born: nat, events: seq<LinkEvent>, side: Ack.Side, n: nat)
    requires LinkRun(cipher, born, events)
    requires n in LinkAfter(cipher, born, events).At(side).sender.cleared
    ensures var accepted := LinkAfter(cipher, born, events).At(Ack.Other(side)).view.accepted;
            n in accepted || n + 1 in accepted
  {
    TraceIsRun(cipher, born, events);
    LinkRunKeepsOk(cipher, born, events);
    Ack.RunKeepsOk(Ack.AsWritten, Trace(cipher, born, events));
    hide LinkRun, LinkAfter, Trace, Ack.Run, Ack.After, WiresOk, FramedAs, Tagged, Increasing, Ack.EndpointOk,
      Ack.PacketOk;
  }

  /** No outstanding packet of the receiver is suspect in the header of the packet it is about to hear. */
  predicate CleanArrival(l: Link, e: LinkEvent) {
    e.Deliver? && CarriesHeader(e.wire.data) ==>
      var unacked := l.At(Ack.Other(e.wire.from)).sender.conn.rel.unacked;
      forall i :: 0 <= i < |unacked| ==> !Ack.Suspect(HeaderIn(e.wire.data), unacked[i].sequence)
  }

  predicate CleanLinkRun(cipher: Cipher, born: nat, events: seq<LinkEvent>) {
    events == []
    || (&& CleanLinkRun(cipher, born, events[..|events| - 1])
        && CleanArrival(LinkAfter(cipher, born, events[..|events| - 1]), events[|events| - 1]))
  }

  /** What the sender sees in its list is what the protocol sees in its numbers. */
  lemma CleanArrivalIsClean(l: Link, e: LinkEvent)
    requires LinkOk(l) && e.Deliver? && e.wire in l.wires
    ensures CleanArrival(l, e) <==> Ack.CleanEvent(Abstract(l), Ack.Deliver(PacketOf(e.wire)))
  {
    SentAreFramed(l, e.wire);
    var s := l.At(Ack.Other(e.wire.from)).sender;
    assert Conserved(s);
    hide HeaderIn, Ack.Suspect, Increasing, FramedAs, WiresOk, PacketsOf, Conserved;
    TaggedSequences(s);
    assert forall n :: n in Outstanding(s) <==> n in s.numbers;
  }

  lemma TaggedSequences(s: Sender)
    requires Conserved(s)
    ensures |s.numbers| == |s.conn.rel.unacked|
    ensures forall i :: 0 <= i < |s.numbers| ==> s.conn.rel.unacked[i].sequence == Wrap16(s.numbers[i])
  {
    hide FramedAs, Increasing, Outstanding;
  }

  /** A clean arrival is one whose header surely clears received packets only. */
  lemma CleanArrivalExactly(cipher: Cipher, born: nat, events: seq<LinkEvent>, w: Wire, now: nat)
    requires LinkRun(cipher, born, events)
    requires LinkEnabled(LinkAfter(cipher, born, events), Deliver(w, now))
    ensures var l := LinkAfter(cipher, born, events);
            CarriesHeader(w.data)
            && (CleanArrival(l, Deliver(w, now)) <==>
                Ack.SurelySafe(HeaderIn(w.data), w.seen.max, Outstanding(l.At(Ack.Other(w.from)).sender)))
  {
    var l := LinkAfter(cipher, born, events);
    TraceIsRun(cipher, born, events);
    LinkRunKeepsOk(cipher, born, events);
    SentAreFramed(l, w);
    CleanArrivalIsClean(l, Deliver(w, now));
    hide LinkRun, LinkAfter, Trace, Ack.Run, Ack.After, LinkOk, CleanArrival, Ack.CleanEvent, Ack.SurelySafe;
    Ack.CleanDeliveryExactly(Trace(cipher, born, events), PacketOf(w));
  }

  lemma {:induction false} SendsAreClean(cipher: Cipher, side: Ack.Side, s: Sender, n: nat, before: seq<Ack.Event>)
    requires n <= |s.conn.queue| && Ack.CleanRun(before)
    ensures Ack.CleanRun(before + Sends(cipher, side, s, n))
  {
    hide Emits;
    if n == 0 {
      assert before + [] == before;
    } else {
      SendsAreClean(cipher, side, s, n - 1, before);
      if s.conn.queue[n - 1].reliable {
        var e := if Emits(cipher, s, n - 1) then Ack.Send(side) else Ack.FailedSend(side);
        CleanOneMore(before + Sends(cipher, side, s, n - 1), e);
        assert before + Sends(cipher, side, s, n) == before + Sends(cipher, side, s, n - 1) + [e];
      }
    }
  }

  lemma CleanOneMore(events: seq<Ack.Event>, e: Ack.Event)
    requires Ack.CleanRun(events) && Ack.CleanEvent(Ack.After(Ack.AsWritten, events), e)
    ensures Ack.CleanRun(events + [e])
  {
    assert (events + [e])[..|events|] == events;
  }

  lemma EventIsClean(cipher: Cipher, l: Link, e: LinkEvent, trace: seq<Ack.Event>)
    requires LinkOk(l) && LinkEnabled(l, e) && CleanArrival(l, e)
    requires Ack.CleanRun(trace) && Ack.After(Ack.AsWritten, trace) == Abstract(l)
    ensures Ack.CleanRun(trace + EventsOf(cipher, l, e))
  {
    hide LinkOk, Sends, CleanArrival, Ack.CleanRun, Ack.CleanEvent, Ack.After, Abstract;
    match e
    case Update(side, _) => SendsAreClean(cipher, side, l.At(side).sender, |l.At(side).sender.conn.queue|, trace);
    case Deliver(w, _) =>
      CleanArrivalIsClean(l, e);
      CleanOneMore(trace, Ack.Deliver(PacketOf(w)));
    case _ => assert trace + [] == trace;
  }

  lemma {:induction false} TraceIsClean(cipher: Cipher, born: nat, events: seq<LinkEvent>)
    requires LinkRun(cipher, born, events) && CleanLinkRun(cipher, born, events)
    ensures Ack.CleanRun(Trace(cipher, born, events))
  {
    if events != [] {
      var before, e := events[..|events| - 1], events[|events| - 1];
      var l, trace := LinkAfter(cipher, born, before), Trace(cipher, born, before);
      hide LinkOk, CleanArrival, LinkEnabled, EventsOf, Ack.CleanRun, Ack.After, Ack.Run, Abstract, LinkAfter;
      TraceIsClean(cipher, born, before);
      TraceIsRun(cipher, born, before);
      LinkRunKeepsOk(cipher, born, before);
      EventIsClean(cipher, l, e, trace);
    }
  }

  /**
    The code as written is safe in every run in which no header heard has a suspect packet outstanding:
    then whatever either side has cleared was accepted by the other.
   */
  lemma CleanLinkIsSafe(cipher: Cipher, born: nat, events: seq<LinkEvent>, side: Ack.Side, n: nat)
    requires LinkRun(cipher, born, events) && CleanLinkRun(cipher, born, events)
    requires n in LinkAfter(cipher, born, events).At(side).sender.cleared
    ensures n in LinkAfter(cipher, born, events).At(Ack.Other(side)).view.accepted
  {
    TraceIsRun(cipher, born, events);
    TraceIsClean(cipher, born, events);
    LinkRunKeepsOk(cipher, born, events);
    hide LinkRun, CleanLinkRun, LinkAfter, Trace, Ack.Run, Ack.After, Ack.CleanRun, WiresOk, FramedAs, Tagged,
      Increasing;
    Ack.CleanRunIsSafe(Trace(cipher, born, events), side, n);
  }

  /** Nothing is accepted that the peer's connection did not emit. */
  lemma AcceptedWasEmitted(cipher: Cipher, born: nat, events: seq<LinkEvent>, side: Ack.Side)
    requires LinkRun(cipher, born, events)
    ensures LinkAfter(cipher, born, events).At(side).view.accepted <=
            LinkAfter(cipher, born, events).At(Ack.Other(side)).sender.sent.Keys
  {
    TraceIsRun(cipher, born, events);
    Ack.AcceptedWasSent(Ack.AsWritten, Trace(cipher, born, events), side);
    hide LinkRun, LinkAfter, Trace, Ack.Run, Ack.After;
  }

  /** The answer of the window to the bytes of a packet is that of the numbers: new once, never again. */
  lemma NewExactlyByNumber(cipher: Cipher, born: nat, events: seq<LinkEvent>, w: Wire, now: nat)
    requires LinkRun(cipher, born, events)
    requires LinkEnabled(LinkAfter(cipher, born, events), Deliver(w, now))
    ensures var p := LinkAfter(cipher, born, events).At(Ack.Other(w.from));
            CarriesHeader(w.data)
            && (IsNew(p.sender.conn.rel.window, HeaderIn(w.data).sequence) <==> IsNewNumber(p.view, w.number))
  {
    var l := LinkAfter(cipher, born, events);
    TraceIsRun(cipher, born, events);
    LinkRunKeepsOk(cipher, born, events);
    Ack.RunKeepsOk(Ack.AsWritten, Trace(cipher, born, events));
    hide LinkRun, LinkAfter, Trace, Ack.Run, Ack.After, WiresOk, Conserved, Ack.PacketOk, Ack.ClearedOk, IsNew,
      IsNewNumber;
    SentAreFramed(l, w);
    var p := l.At(Ack.Other(w.from));
    ArrivalRefines(p.sender.conn.rel.window, p.view, w.number);
  }

  /** The bytes are a frame that seals the payload under the key, with the low bits of the number as nonce. */
  predicate IsSealed(cipher: Cipher, w: Wire) {
    && CarriesHeader(w.data)
    && HeaderIn(w.data).sequence == Wrap16(w.number)
    && cipher.seal(w.key, w.payload, Wrap16(w.number)) == Some(w.data[GENERAL_SIZE + RELIABILITY_SIZE..])
  }

  lemma {:induction false} NewWiresAreSealed(cipher: Cipher, side: Ack.Side, p: Peer, n: nat)
    requires Conserved(p.sender) && n <= |p.sender.conn.queue|
    ensures forall w | w in NewWires(cipher, side, p, n) :: IsSealed(cipher, w)
  {
    if n > 0 {
      NewWiresAreSealed(cipher, side, p, n - 1);
      if p.sender.conn.queue[n - 1].reliable && Emits(cipher, p.sender, n - 1) {
        NewWireIsSealed(cipher, side, p, n - 1);
      }
      hide IsSealed, Conserved, WireOf;
    }
  }

  lemma NewWireIsSealed(cipher: Cipher, side: Ack.Side, p: Peer, i: nat)
    requires Conserved(p.sender) && i < |p.sender.conn.queue|
    requires p.sender.conn.queue[i].reliable && Emits(cipher, p.sender, i)
    ensures IsSealed(cipher, NewWire(cipher, side, p, i))
  {
    var c := p.sender.conn;
    SequenceIsNumber(p.sender, i);
    FrameCarriesNumber(cipher, p.sender, i);
    var box := cipher.seal(c.key, c.queue[i].data, SequenceOf(c, i)).value;
    RoundTrip.ReliableFrameParts(HeaderOf(c, i), box);
    hide Conserved, HeaderIn, DecodeHeader, ReliableFrame, SequenceOf, NumberOf, Wrap16;
  }

  lemma {:induction false} WiresStaySealed(cipher: Cipher, born: nat, events: seq<LinkEvent>)
    ensures forall w | w in LinkAfter(cipher, born, events).wires :: IsSealed(cipher, w)
  {
    hide IsSealed;
    if events != [] {
      var before, e := events[..|events| - 1], events[|events| - 1];
      WiresStaySealed(cipher, born, before);
      LinkRunKeepsOk(cipher, born, before);
      var l := LinkAfter(cipher, born, before);
      if e.Update? {
        NewWiresAreSealed(cipher, e.side, l.At(e.side), |l.At(e.side).sender.conn.queue|);
      }
      hide LinkOk, NewWires, Conservation.Step, Local;
    }
  }

  /** What a connection makes of a packet: the payload under its key, and nothing under another. */
  lemma SealedYieldsPayload(cipher: Cipher, c: ConnState, w: Wire, now: nat)
    requires Sealed(cipher) && IsSealed(cipher, w)
    ensures Handled(cipher, c, w.data, now).1 ==
            if c.key != w.key then Dropped
            else if HandshakeShaped(w.payload) then Rekeyed(SessionKey(w.payload))
            else App(w.payload)
  {
    OpensExactly(cipher, w.key, w.payload, Wrap16(w.number), c.key, Wrap16(w.number));
    hide Sealed, Inverts, DecodeHeader, HandshakeShaped, SessionKey, Incoming, Wrap16;
  }

  /**
    In every run a delivered packet yields exactly what was queued under its number if the receiver
    holds the key it was sealed under, and nothing otherwise: nothing is invented or altered on the way.
   */
  lemma DeliveryYieldsPayload(cipher: Cipher, born: nat, events: seq<LinkEvent>, w: Wire, now: nat)
    requires Sealed(cipher) && w in LinkAfter(cipher, born, events).wires
    ensures var c := LinkAfter(cipher, born, events).At(Ack.Other(w.from)).sender.conn;
            Handled(cipher, c, w.data, now).1 ==
            if c.key != w.key then Dropped
            else if HandshakeShaped(w.payload) then Rekeyed(SessionKey(w.payload))
            else App(w.payload)
  {
    WiresStaySealed(cipher, born, events);
    hide LinkAfter, Sealed, IsSealed, Handled;
    SealedYieldsPayload(cipher, LinkAfter(cipher, born, events).At(Ack.Other(w.from)).sender.conn, w, now);
  }

  /** What either side has cleared it never emits again, in any continuation. */
  lemma {:induction false} ClearedForGood(cipher: Cipher, born: nat, events: seq<LinkEvent>, more: seq<LinkEvent>,
                                          side: Ack.Side, n: nat)
    requires n in LinkAfter(cipher, born, events).At(side).sender.cleared
    ensures var before := LinkAfter(cipher, born, events).At(side).sender;
            var after := LinkAfter(cipher, born, events + more).At(side).sender;
            n in after.cleared && n !in Outstanding(after) && Times(after.resends, n) == Times(before.resends, n)
    decreases |more|
  {
    LinkRunKeepsOk(cipher, born, events + more);
    hide LinkStep, WiresOk, Times, FramedAs, Tagged, Increasing;
    if more == [] {
      assert events + more == events;
    } else {
      var before, e := events + more[..|more| - 1], more[|more| - 1];
      ClearedForGood(cipher, born, events, more[..|more| - 1], side, n);
      LinkRunKeepsOk(cipher, born, before);
      assert (events + more)[..|events + more| - 1] == before;
      LinkStepKeepsCleared(cipher, LinkAfter(cipher, born, before), e, side, n);
    }
  }

  lemma LinkStepKeepsCleared(cipher: Cipher, l: Link, e: LinkEvent, side: Ack.Side, n: nat)
    requires LinkOk(l) && n in l.At(side).sender.cleared
    ensures var after := LinkStep(cipher, l, e).At(side).sender;
            n in after.cleared && Times(after.resends, n) == Times(l.At(side).sender.resends, n)
  {
    hide WiresOk, Times, Conservation.Step, NewWires, Conserved;
    if Actor(e) == side {
      StepKeepsCleared(cipher, l.At(side).sender, Local(e), n);
    }
  }

  /** A retransmission puts nothing on the wire that was not there. */
  lemma ResendsAreOnTheWire(cipher: Cipher, born: nat, events: seq<LinkEvent>, side: Ack.Side, now: nat)
    ensures var l := LinkAfter(cipher, born, events);
            var r := l.At(side).sender.conn.rel;
            forall data | data in ResentData(r.unacked, now, r.rtt.rto, |r.unacked|) ::
              exists n :: n in Outstanding(l.At(side).sender) && OnWire(l.wires, side, n, data)
  {
    LinkRunKeepsOk(cipher, born, events);
    var l := LinkAfter(cipher, born, events);
    var s := l.At(side).sender;
    ResendsRepeat(s, now, |s.conn.rel.unacked|);
    hide LinkAfter, ResentData, Conserved, OnWire;
    forall data | data in ResentData(s.conn.rel.unacked, now, s.conn.rel.rtt.rto, |s.conn.rel.unacked|)
      ensures exists n :: n in Outstanding(s) && OnWire(l.wires, side, n, data)
    {
      var n :| n in s.numbers && n in s.sent && s.sent[n] == data;
      assert n in Outstanding(s) && OnWire(l.wires, side, n, s.sent[n]);
    }
  }
}
