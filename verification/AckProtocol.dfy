/**
  Two endpoints acknowledge each other's packets over a network that loses, duplicates and
  reorders. A packet, once sent, stays in the network for good: losing it is never delivering it,
  a duplicate or a retransmission is delivering it again.
 */
module AckProtocol {
  import opened Numbers
  import opened Bits
  import opened Protocol
  import opened ReceiveWindow

  /** The decoder of the source, and one that reads `ack - d` from bit `d`, where the receiver put it. */
  datatype Decoder = AsWritten | Aligned

  predicate AckedAligned(h: Header, s: u16) {
    || s == h.ack
    || (MoreRecent(h.ack, s)
        && var diff := WrappingSub(h.ack, s); 0 < diff <= 31 && Bit32(h.ackBits, diff))
  }

  predicate Clears(decoder: Decoder, h: Header, s: u16) {
    match decoder
    case AsWritten => Acked(h, s)
    case Aligned => AckedAligned(h, s)
  }

  // ---------- the meaning of one header ----------

  /** Header `h` was built from a window that stood for `seen`. */
  ghost predicate BuiltFrom(h: Header, seen: View) {
    Consistent(seen) && Refines(Window(h.ack, h.ackBits), seen)
  }

  predicate Near(s: nat, ack: nat) {
    1 <= s && ack - 0x8000 < s < ack + 0x8000
  }

  /** How far behind the acknowledged number `s` is, read off the header. */
  lemma Distance(h: Header, seen: View, s: nat)
    requires BuiltFrom(h, seen) && Near(s, seen.max)
    ensures h.ack == Wrap16(s) <==> s == seen.max
    ensures MoreRecent(h.ack, Wrap16(s)) <==> s < seen.max
    ensures s <= seen.max ==> WrappingSub(h.ack, Wrap16(s)) == seen.max - s
  {
    MoreRecentIsGreater(seen.max, s);
    MoreRecentIsGreater(s, seen.max);
  }

  /** What the source clears: the acknowledged number, and `s` whenever `s + 1` was received. */
  lemma ClearedExactly(h: Header, seen: View, s: nat)
    requires BuiltFrom(h, seen) && Near(s, seen.max)
    ensures Acked(h, Wrap16(s)) <==> s == seen.max || (1 <= seen.max - s <= 32 && s + 1 in seen.accepted)
  {
    hide Wrap16, MoreRecent, WrappingSub;
    Distance(h, seen, s);
    var d := seen.max - s;
    if 1 <= d <= 32 {
      assert Bit32(h.ackBits, d - 1) <==> seen.max - (d - 1) in seen.accepted;
    }
  }

  /** What the aligned decoder clears: received numbers, and of those all in its reach. */
  lemma AlignedClearedExactly(h: Header, seen: View, s: nat)
    requires BuiltFrom(h, seen) && Near(s, seen.max)
    ensures AckedAligned(h, Wrap16(s)) <==> s in seen.accepted && seen.max - s <= 31
  {
    hide Wrap16, MoreRecent, WrappingSub;
    Distance(h, seen, s);
    var d := seen.max - s;
    if 1 <= d <= 31 {
      assert Bit32(h.ackBits, d) <==> seen.max - d in seen.accepted;
    }
  }

  /** The packet just below the acknowledged one is always cleared, received or not. */
  lemma PredecessorAlwaysCleared(h: Header, seen: View, s: nat)
    requires BuiltFrom(h, seen) && 1 <= s && seen.max == s + 1
    ensures Acked(h, Wrap16(s))
  {
    ClearedExactly(h, seen, s);
  }

  /** The gap the sender can see in a header: `ack - d` is missing while its successor arrived. */
  predicate GapAt(h: Header, s: u16) {
    MoreRecent(h.ack, s)
    && var d := WrappingSub(h.ack, s);
       1 <= d <= 31 && Bit32(h.ackBits, d - 1) && !Bit32(h.ackBits, d)
  }

  /** 32 behind, the header acknowledges through its last bit and has no bit left that could deny it. */
  predicate PastTheHeader(h: Header, s: u16) {
    MoreRecent(h.ack, s) && WrappingSub(h.ack, s) == 32 && Bit32(h.ackBits, 31)
  }

  /**
    The source clears an unreceived packet exactly at the gaps of the header, but for the packet 32
    behind, which it clears on the last bit alone.
   */
  lemma MisclearedExactly(h: Header, seen: View, s: nat)
    requires BuiltFrom(h, seen) && Near(s, seen.max)
    ensures seen.max - s != 32 ==> (Acked(h, Wrap16(s)) && s !in seen.accepted <==> GapAt(h, Wrap16(s)))
    ensures seen.max - s == 32 ==> (Acked(h, Wrap16(s)) <==> PastTheHeader(h, Wrap16(s)))
    ensures seen.max - s == 32 <==> MoreRecent(h.ack, Wrap16(s)) && WrappingSub(h.ack, Wrap16(s)) == 32
  {
    hide Acked, Wrap16, MoreRecent, WrappingSub;
    ClearedExactly(h, seen, s);
    Distance(h, seen, s);
    var d := seen.max - s;
    if 1 <= d <= 32 {
      assert Bit32(h.ackBits, d - 1) <==> seen.max - (d - 1) in seen.accepted;
    }
    if 1 <= d <= 31 {
      assert Bit32(h.ackBits, d) <==> seen.max - d in seen.accepted;
    }
  }

  /** 32 behind, the very same header is built whether or not the packet was received. */
  lemma HeaderCannotTell(h: Header, seen: View, s: nat)
    requires BuiltFrom(h, seen) && 1 <= s && seen.max - s == 32
    ensures BuiltFrom(h, View(seen.max, seen.accepted + {s}))
    ensures BuiltFrom(h, View(seen.max, seen.accepted - {s}))
  {}

  /**
    "Cleared implies received" holds for a header exactly when it shows no gap at an outstanding
    packet; only of one past the header does it take the receipt itself.
   */
  lemma SafeExactlyWithoutGaps(h: Header, seen: View, outstanding: set<nat>)
    requires BuiltFrom(h, seen)
    requires forall s | s in outstanding :: Near(s, seen.max)
    ensures (forall s | s in outstanding :: Acked(h, Wrap16(s)) ==> s in seen.accepted) <==>
            (forall s | s in outstanding ::
               !GapAt(h, Wrap16(s)) && (PastTheHeader(h, Wrap16(s)) ==> s in seen.accepted))
  {
    forall s | s in outstanding
      ensures (Acked(h, Wrap16(s)) ==> s in seen.accepted) <==>
              !GapAt(h, Wrap16(s)) && (PastTheHeader(h, Wrap16(s)) ==> s in seen.accepted)
    {
      MisclearedExactly(h, seen, s);
    }
  }

  /** What the sender can read off a header: it may be clearing `s` although `s` was not received. */
  predicate Suspect(h: Header, s: u16) {
    GapAt(h, s) || PastTheHeader(h, s)
  }

  ghost predicate ClearsReceivedOnly(h: Header, seen: View, outstanding: set<nat>) {
    forall s | s in outstanding :: Acked(h, Wrap16(s)) ==> s in seen.accepted
  }

  /** Whatever the peer has received that gives this header, only received packets are cleared. */
  ghost predicate SurelySafe(h: Header, max: nat, outstanding: set<nat>) {
    forall seen: View | BuiltFrom(h, seen) && seen.max == max :: ClearsReceivedOnly(h, seen, outstanding)
  }

  /**
    The exact condition, for any outstanding packets: the header guarantees that only received ones
    are cleared if and only if none of them is suspect in it.
   */
  lemma SurelySafeExactly(h: Header, seen: View, outstanding: set<nat>)
    requires BuiltFrom(h, seen)
    requires forall s | s in outstanding :: Near(s, seen.max)
    ensures SurelySafe(h, seen.max, outstanding) <==> (forall s | s in outstanding :: !Suspect(h, Wrap16(s)))
  {
    hide Acked, GapAt, PastTheHeader, BuiltFrom;
    if s :| s in outstanding && Suspect(h, Wrap16(s)) {
      SuspectMayBeMissing(h, seen, s, outstanding);
    } else {
      forall other: View | BuiltFrom(h, other) && other.max == seen.max
        ensures ClearsReceivedOnly(h, other, outstanding)
      {
        forall s | s in outstanding
          ensures Acked(h, Wrap16(s)) ==> s in other.accepted
        {
          assert !Suspect(h, Wrap16(s));
          MisclearedExactly(h, other, s);
        }
      }
    }
  }

  /** A suspect packet is cleared by the header and missing from some view that gives the same header. */
  lemma SuspectMayBeMissing(h: Header, seen: View, s: nat, outstanding: set<nat>)
    requires BuiltFrom(h, seen) && Near(s, seen.max) && s in outstanding && Suspect(h, Wrap16(s))
    ensures !SurelySafe(h, seen.max, outstanding)
  {
    MisclearedExactly(h, seen, s);
    if seen.max - s == 32 {
      HeaderCannotTell(h, seen, s);
      var without := View(seen.max, seen.accepted - {s});
      MisclearedExactly(h, without, s);
      assert !ClearsReceivedOnly(h, without, outstanding);
    } else {
      assert GapAt(h, Wrap16(s)) by {
        MoreRecentIsGreater(seen.max, s);
        MoreRecentIsGreater(s, seen.max);
      }
      assert !ClearsReceivedOnly(h, seen, outstanding);
    }
  }

  // ---------- two endpoints ----------

  datatype Side = Left | Right

  function Other(side: Side): Side {
    if side == Left then Right else Left
  }

  /** `next` is the next number to use, `sent` the numbers that left, `outstanding` those not yet cleared. */
  datatype Endpoint = Endpoint(next: nat, sent: set<nat>, outstanding: set<nat>, window: Window, view: View)

  const IDLE := Endpoint(1, {}, {}, Window(0, 0), NOTHING)

  /** A packet with its number and the view its header was built from, neither of which travels. */
  datatype Packet = Packet(from: Side, number: nat, header: Header, seen: View)

  datatype Network = Network(left: Endpoint, right: Endpoint, packets: set<Packet>) {
    function At(side: Side): Endpoint {
      if side == Left then left else right
    }

    function With(side: Side, e: Endpoint): Network {
      if side == Left then this.(left := e) else this.(right := e)
    }
  }

  const START := Network(IDLE, IDLE, {})

  datatype Event =
    | Send(side: Side)
    | FailedSend(side: Side)
    | Deliver(packet: Packet)

  /** The packet `side` sends next: its sequence and the state of its receive window. */
  function NextPacket(net: Network, side: Side): Packet {
    var e := net.At(side);
    Packet(side, e.next, Header(Wrap16(e.next), e.window.highest, e.window.bits), e.view)
  }

  /** No number involved in a delivery is 2^15 or more away from the one it is compared with. */
  ghost predicate Enabled(net: Network, event: Event) {
    match event
    case Send(_) => true
    case FailedSend(_) => true
    case Deliver(p) =>
      var e := net.At(Other(p.from));
      && p in net.packets
      && InRange(e.view, p.number)
      && (forall s | s in e.outstanding :: Near(s, p.seen.max))
  }

  /** What a delivered packet does to its receiver. */
  function Hears(decoder: Decoder, e: Endpoint, p: Packet): Endpoint {
    e.(outstanding := (set s | s in e.outstanding && !Clears(decoder, p.header, Wrap16(s))),
       window := Received(e.window, p.header.sequence),
       view := Accept(e.view, p.number))
  }

  function Step(decoder: Decoder, net: Network, event: Event): Network {
    match event
    case Send(side) =>
      var e := net.At(side);
      net.With(side, e.(next := e.next + 1, sent := e.sent + {e.next}, outstanding := e.outstanding + {e.next}))
         .(packets := net.packets + {NextPacket(net, side)})
    case FailedSend(side) =>
      var e := net.At(side);
      net.With(side, e.(next := e.next + 1))
    case Deliver(p) => net.With(Other(p.from), Hears(decoder, net.At(Other(p.from)), p))
  }

  ghost predicate Run(decoder: Decoder, events: seq<Event>) {
    events == []
    || (Run(decoder, events[..|events| - 1])
        && Enabled(After(decoder, events[..|events| - 1]), events[|events| - 1]))
  }

  function After(decoder: Decoder, events: seq<Event>): Network {
    if events == [] then START
    else Step(decoder, After(decoder, events[..|events| - 1]), events[|events| - 1])
  }

  // ---------- what every step keeps ----------

  ghost predicate EndpointOk(e: Endpoint, peer: Endpoint) {
    && Consistent(e.view) && Refines(e.window, e.view)
    && e.next >= 1
    && (forall s | s in e.sent :: 1 <= s < e.next)
    && e.outstanding <= e.sent
    && e.view.accepted <= peer.sent
  }

  ghost predicate PacketOk(net: Network, p: Packet) {
    && p.number in net.At(p.from).sent
    && p.header.sequence == Wrap16(p.number)
    && BuiltFrom(p.header, p.seen)
    && p.seen.accepted <= net.At(p.from).view.accepted
  }

  /** Has every packet that `decoder` cleared been received, as far as that decoder can promise it? */
  ghost predicate ClearedOk(decoder: Decoder, e: Endpoint, peer: Endpoint) {
    forall s | s in e.sent && s !in e.outstanding ::
      s in peer.view.accepted || (decoder == AsWritten && s + 1 in peer.view.accepted)
  }

  ghost predicate Ok(decoder: Decoder, net: Network) {
    && EndpointOk(net.left, net.right)
    && EndpointOk(net.right, net.left)
    && (forall p | p in net.packets :: PacketOk(net, p))
    && ClearedOk(decoder, net.left, net.right)
    && ClearedOk(decoder, net.right, net.left)
  }

  lemma AcceptGrows(v: View, n: nat)
    ensures v.accepted <= Accept(v, n).accepted
    ensures Accept(v, n).accepted <= v.accepted + {n}
  {}

  lemma ClearedWereReceived(decoder: Decoder, p: Packet, s: nat)
    requires BuiltFrom(p.header, p.seen) && Near(s, p.seen.max)
    requires Clears(decoder, p.header, Wrap16(s))
    ensures s in p.seen.accepted || (decoder == AsWritten && s + 1 in p.seen.accepted)
  {
    if decoder == AsWritten {
      ClearedExactly(p.header, p.seen, s);
    } else {
      AlignedClearedExactly(p.header, p.seen, s);
    }
  }

  lemma DeliveryKeepsOk(decoder: Decoder, net: Network, p: Packet)
    requires Ok(decoder, net) && Enabled(net, Deliver(p))
    ensures Ok(decoder, Step(decoder, net, Deliver(p)))
  {
    var to := Other(p.from);
    var e, peer := net.At(to), net.At(p.from);
    var after := Step(decoder, net, Deliver(p));
    assert PacketOk(net, p);
    ArrivalRefines(e.window, e.view, p.number);
    AcceptGrows(e.view, p.number);
    assert EndpointOk(after.At(to), after.At(p.from));
    forall s | s in after.At(to).sent && s !in after.At(to).outstanding
      ensures s in peer.view.accepted || (decoder == AsWritten && s + 1 in peer.view.accepted)
    {
      if s in e.outstanding {
        ClearedWereReceived(decoder, p, s);
      }
    }
    assert ClearedOk(decoder, after.At(to), after.At(p.from));
    forall q | q in after.packets
      ensures PacketOk(after, q)
    {
      assert PacketOk(net, q);
    }
  }

  lemma SendKeepsOk(decoder: Decoder, net: Network, side: Side)
    requires Ok(decoder, net)
    ensures Ok(decoder, Step(decoder, net, Send(side)))
    ensures Ok(decoder, Step(decoder, net, FailedSend(side)))
  {
    var after := Step(decoder, net, Send(side));
    forall q | q in after.packets
      ensures PacketOk(after, q)
    {
      if q in net.packets {
        assert PacketOk(net, q);
      }
    }
    var failed := Step(decoder, net, FailedSend(side));
    forall q | q in failed.packets
      ensures PacketOk(failed, q)
    {
      assert PacketOk(net, q);
    }
  }

  lemma {:induction false} RunKeepsOk(decoder: Decoder, events: seq<Event>)
    requires Run(decoder, events)
    ensures Ok(decoder, After(decoder, events))
  {
    if events == [] {
      AllBits32(0, 0);
    } else {
      var before := events[..|events| - 1];
      RunKeepsOk(decoder, before);
      match events[|events| - 1]
      case Send(side) => SendKeepsOk(decoder, After(decoder, before), side);
      case FailedSend(side) => SendKeepsOk(decoder, After(decoder, before), side);
      case Deliver(p) => DeliveryKeepsOk(decoder, After(decoder, before), p);
    }
  }

  // ---------- main results ----------

  /** With the aligned decoder nothing leaves the outstanding list that the peer has not accepted. */
  lemma AlignedIsSafe(events: seq<Event>, side: Side, s: nat)
    requires Run(Aligned, events)
    requires s in After(Aligned, events).At(side).sent && s !in After(Aligned, events).At(side).outstanding
    ensures s in After(Aligned, events).At(Other(side)).view.accepted
  {
    RunKeepsOk(Aligned, events);
  }

  /** What the source guarantees instead: the packet or its successor was accepted. */
  lemma AsWrittenIsOffByOne(events: seq<Event>, side: Side, s: nat)
    requires Run(AsWritten, events)
    requires s in After(AsWritten, events).At(side).sent && s !in After(AsWritten, events).At(side).outstanding
    ensures s in After(AsWritten, events).At(Other(side)).view.accepted
            || s + 1 in After(AsWritten, events).At(Other(side)).view.accepted
  {
    RunKeepsOk(AsWritten, events);
  }

  /** Every delivery of the run came when no outstanding packet of its receiver was suspect in it. */
  ghost predicate CleanRun(events: seq<Event>) {
    events == []
    || (&& CleanRun(events[..|events| - 1])
        && CleanEvent(After(AsWritten, events[..|events| - 1]), events[|events| - 1]))
  }

  ghost predicate CleanEvent(net: Network, event: Event) {
    event.Deliver? ==>
      forall s | s in net.At(Other(event.packet.from)).outstanding :: !Suspect(event.packet.header, Wrap16(s))
  }

  /** With no suspect packet the code as written clears what the aligned decoder may clear. */
  lemma CleanDeliveryClearsReceived(net: Network, p: Packet)
    requires Ok(AsWritten, net) && Enabled(net, Deliver(p)) && CleanEvent(net, Deliver(p))
    ensures var e := net.At(Other(p.from));
            forall s | s in e.outstanding && Acked(p.header, Wrap16(s)) :: s in net.At(p.from).view.accepted
  {
    assert PacketOk(net, p);
    hide GapAt, PastTheHeader, Acked, Ok;
    forall s | s in net.At(Other(p.from)).outstanding && Acked(p.header, Wrap16(s))
      ensures s in net.At(p.from).view.accepted
    {
      MisclearedExactly(p.header, p.seen, s);
    }
  }

  /** As written, every run without a suspect packet is safe: what was cleared was accepted. */
  lemma {:induction false} CleanRunIsSafe(events: seq<Event>, side: Side, s: nat)
    requires Run(AsWritten, events) && CleanRun(events)
    requires s in After(AsWritten, events).At(side).sent && s !in After(AsWritten, events).At(side).outstanding
    ensures s in After(AsWritten, events).At(Other(side)).view.accepted
    decreases |events|
  {
    if events != [] {
      var before, event := events[..|events| - 1], events[|events| - 1];
      RunKeepsOk(AsWritten, before);
      var net := After(AsWritten, before);
      hide CleanEvent, Enabled, Ok, Received, Suspect;
      if event.Deliver? {
        CleanDeliveryClearsReceived(net, event.packet);
      }
      if s in net.At(side).sent && s !in net.At(side).outstanding {
        CleanRunIsSafe(before, side, s);
      }
    }
  }

  /**
    Conversely a delivery that is not clean clears a packet that its header does not vouch for:
    clean deliveries are exactly those that surely clear received packets only.
   */
  lemma CleanDeliveryExactly(events: seq<Event>, p: Packet)
    requires Run(AsWritten, events) && Enabled(After(AsWritten, events), Deliver(p))
    ensures var net := After(AsWritten, events);
            CleanEvent(net, Deliver(p)) <==> SurelySafe(p.header, p.seen.max, net.At(Other(p.from)).outstanding)
  {
    RunKeepsOk(AsWritten, events);
    var net := After(AsWritten, events);
    assert PacketOk(net, p);
    hide After, Run, Suspect, SurelySafe, BuiltFrom, EndpointOk, ClearedOk;
    SurelySafeExactly(p.header, p.seen, net.At(Other(p.from)).outstanding);
  }

  ghost predicate VouchedEvent(net: Network, event: Event) {
    event.Deliver? ==>
      SurelySafe(event.packet.header, event.packet.seen.max, net.At(Other(event.packet.from)).outstanding)
  }

  /** Every delivery of the run came with a header that vouches for all it clears. */
  ghost predicate VouchedRun(events: seq<Event>) {
    events == []
    || (&& VouchedRun(events[..|events| - 1])
        && VouchedEvent(After(AsWritten, events[..|events| - 1]), events[|events| - 1]))
  }

  /** The clean runs are exactly those in which no clearing is left to chance. */
  lemma {:induction false} CleanRunExactly(events: seq<Event>)
    requires Run(AsWritten, events)
    ensures CleanRun(events) <==> VouchedRun(events)
  {
    if events != [] {
      var before, event := events[..|events| - 1], events[|events| - 1];
      CleanRunExactly(before);
      hide CleanEvent, SurelySafe, Enabled;
      if event.Deliver? {
        CleanDeliveryExactly(before, event.packet);
      }
    }
  }

  /** A peer never accepts what was not sent to it. */
  lemma AcceptedWasSent(decoder: Decoder, events: seq<Event>, side: Side)
    requires Run(decoder, events)
    ensures After(decoder, events).At(side).view.accepted <= After(decoder, events).At(Other(side)).sent
  {
    RunKeepsOk(decoder, events);
  }

  predicate IsDeliveryOf(e: Event, from: Side, n: nat) {
    e.Deliver? && e.packet.from == from && e.packet.number == n
  }

  ghost predicate Delivered(events: seq<Event>, from: Side, n: nat) {
    exists i :: 0 <= i < |events| && IsDeliveryOf(events[i], from, n)
  }

  /** What is accepted was delivered. */
  lemma {:induction false} AcceptedWasDelivered(decoder: Decoder, events: seq<Event>, side: Side, n: nat)
    requires n in After(decoder, events).At(side).view.accepted
    ensures Delivered(events, Other(side), n)
    decreases |events|
  {
    var before, event := events[..|events| - 1], events[|events| - 1];
    hide Received, Clears;
    if n in After(decoder, before).At(side).view.accepted {
      AcceptedWasDelivered(decoder, before, side, n);
      var i :| 0 <= i < |before| && IsDeliveryOf(before[i], Other(side), n);
      assert events[i] == before[i];
    } else {
      assert IsDeliveryOf(event, Other(side), n);
    }
  }

  /** With the aligned decoder a packet stays outstanding until it has been delivered. */
  lemma AlignedKeepsUntilDelivered(events: seq<Event>, side: Side, n: nat)
    requires Run(Aligned, events) && n in After(Aligned, events).At(side).sent && !Delivered(events, side, n)
    ensures n in After(Aligned, events).At(side).outstanding
  {
    if n !in After(Aligned, events).At(side).outstanding {
      AlignedIsSafe(events, side, n);
      AcceptedWasDelivered(Aligned, events, Other(side), n);
      assert false;
    }
  }

  const FIRST := Packet(Left, 1, Header(1, 0, 0), NOTHING)
  const SECOND := Packet(Left, 2, Header(2, 0, 0), NOTHING)
  const REPLY := Packet(Right, 1, Header(1, 2, 1), View(2, {2}))

  /** Packet 1 is lost, packet 2 arrives, and the reply clears both. */
  const LOSS: seq<Event> := [Send(Left), Send(Left), Deliver(SECOND), Send(Right), Deliver(REPLY)]

  const BOTH_SENT := Network(Endpoint(3, {1, 2}, {1, 2}, Window(0, 0), NOTHING), IDLE, {FIRST, SECOND})
  const SECOND_HEARD := BOTH_SENT.(right := Endpoint(1, {}, {}, Window(2, 1), View(2, {2})))
  const REPLIED := Network(SECOND_HEARD.left, Endpoint(2, {1}, {1}, Window(2, 1), View(2, {2})), {FIRST, SECOND, REPLY})

  lemma SendBoth()
    ensures Step(AsWritten, Step(AsWritten, START, Send(Left)), Send(Left)) == BOTH_SENT
  {}

  lemma HearSecond()
    ensures Enabled(BOTH_SENT, Deliver(SECOND)) && Step(AsWritten, BOTH_SENT, Deliver(SECOND)) == SECOND_HEARD
  {
    assert Advance32(0, 2) == 1;
    assert Received(Window(0, 0), 2) == Window(2, 1) && Accept(NOTHING, 2) == View(2, {2});
    hide Received, Accept, Acked;
  }

  lemma SendReply()
    ensures Step(AsWritten, SECOND_HEARD, Send(Right)) == REPLIED
  {}

  lemma RunOneMore(events: seq<Event>, e: Event)
    requires Run(AsWritten, events) && Enabled(After(AsWritten, events), e)
    ensures Run(AsWritten, events + [e])
    ensures After(AsWritten, events + [e]) == Step(AsWritten, After(AsWritten, events), e)
  {
    hide Step, Enabled;
    assert (events + [e])[..|events|] == events;
  }

  lemma LossBeforeReply()
    ensures Run(AsWritten, LOSS[..4]) && After(AsWritten, LOSS[..4]) == REPLIED
  {
    SendBoth();
    HearSecond();
    SendReply();
    assert After(AsWritten, []) == START && Run(AsWritten, []);
    hide After, Run, Step;
    LossPrefixes();
    RunOneMore([], Send(Left));
    RunOneMore(LOSS[..1], Send(Left));
    RunOneMore(LOSS[..2], Deliver(SECOND));
    RunOneMore(LOSS[..3], Send(Right));
  }

  lemma LossPrefixes()
    ensures [] + [Send(Left)] == LOSS[..1]
    ensures LOSS[..1] + [Send(Left)] == LOSS[..2]
    ensures LOSS[..2] + [Deliver(SECOND)] == LOSS[..3]
    ensures LOSS[..3] + [Send(Right)] == LOSS[..4]
    ensures LOSS[..4] + [Deliver(REPLY)] == LOSS
  {}

  /** The witness: packet 1 was sent, is not outstanding, and was never received. */
  lemma AsWrittenIsUnsafe()
    ensures Run(AsWritten, LOSS)
    ensures 1 in After(AsWritten, LOSS).left.sent && 1 !in After(AsWritten, LOSS).left.outstanding
    ensures 1 !in After(AsWritten, LOSS).right.view.accepted
  {
    LossBeforeReply();
    RunKeepsOk(AsWritten, LOSS[..4]);
    assert PacketOk(REPLIED, REPLY);
    PredecessorAlwaysCleared(REPLY.header, REPLY.seen, 1);
    LossPrefixes();
    hide After, Run, Acked, Ok, Received;
    RunOneMore(LOSS[..4], Deliver(REPLY));
  }
}
