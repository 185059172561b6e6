/** What is queued on one side comes out unchanged on the other, through framing, sealing and parsing. */
module RoundTrip {
  import opened Numbers
  import opened Protocol
  import opened ReceiveWindow
  import opened Packet
  import opened Pipeline
  import opened Connection
  import opened Manager
  import opened World

  // ---------- frames ----------

  lemma ReliableFrameParts(h: Header, box: Bytes)
    ensures var data := ReliableFrame(h, box);
            && |data| == 9 + |box| && data[0] == 1
            && DecodeHeader(data[1..]) == h
            && data[9..] == box
  {
    HeaderRoundTrip(h, box);
    assert ReliableFrame(h, box)[1..] == EncodeHeader(h) + box;
  }

  lemma UnreliableFrameParts(kind: Bytes, nonce: nat, box: Bytes)
    requires |kind| == 1 && nonce < 0x1_0000_0000_0000_0000
    ensures var data := UnreliableFrame(kind, nonce, box);
            && |data| == 9 + |box| && data[..1] == kind
            && U64At(data, 1) == nonce
            && data[9..] == box
  {
    Ranges();
    NumberRoundTrip(nonce, 8);
    assert UnreliableFrame(kind, nonce, box)[1..1 + 8] == ToBytes(nonce, 8);
  }

  /** A reliable frame is opened with the sequence of its own header as nonce. */
  lemma ReliableHandled(cipher: Cipher, c: ConnState, h: Header, box: Bytes, now: nat)
    ensures var inner := cipher.open(c.key, box, h.sequence);
            var heard := c.(rel := Incoming(c.rel, h, now));
            Handled(cipher, c, ReliableFrame(h, box), now) ==
            if inner.None? then (heard, Dropped)
            else if HandshakeShaped(inner.value) then
              (heard.(authenticated := true, key := SessionKey(inner.value)), Rekeyed(SessionKey(inner.value)))
            else (heard, App(inner.value))
  {
    ReliableFrameParts(h, box);
    hide DecodeHeader, ReliableFrame, Incoming;
  }

  lemma UnreliableHandled(cipher: Cipher, c: ConnState, kind: byte, nonce: nat, box: Bytes, now: nat)
    requires kind == INPUT || kind == SNAPSHOT
    requires nonce < 0x1_0000_0000_0000_0000
    ensures var inner := cipher.open(c.key, box, nonce);
            Handled(cipher, c, UnreliableFrame([kind], nonce, box), now) ==
            (c, if inner.Some? then App([kind] + inner.value) else Dropped)
  {
    UnreliableFrameParts([kind], nonce, box);
    assert UnreliableFrame([kind], nonce, box)[0] == kind;
    hide UnreliableFrame, U64At, Incoming;
  }

  // ---------- one send ----------

  /** A send the round trip speaks of: no handshake in disguise, an unreliable one typed and its nonce in range. */
  predicate Plain(c: ConnState, i: nat)
    requires i < |c.queue|
  {
    var ps := c.queue[i];
    if ps.reliable then !HandshakeShaped(ps.data)
    else ps.data != [] && (ps.data[0] == INPUT || ps.data[0] == SNAPSHOT)
         && NonceOf(c, i) < 0x1_0000_0000_0000_0000
  }

  /** Every send that was framed is delivered byte for byte to a peer that holds the same key. */
  lemma SendArrivesUnchanged(cipher: Cipher, c: ConnState, i: nat, peer: ConnState, now: nat)
    requires Inverts(cipher) && i < |c.queue| && Plain(c, i)
    requires WireOf(cipher, c, i).Some? && peer.key == c.key
    ensures Handled(cipher, peer, WireOf(cipher, c, i).value, now).1 == App(c.queue[i].data)
    ensures Handled(cipher, peer, WireOf(cipher, c, i).value, now).0.key == peer.key
  {
    var data := c.queue[i].data;
    if c.queue[i].reliable {
      var sequence := SequenceOf(c, i);
      assert OpensSame(cipher, c.key, data, sequence);
      ReliableHandled(cipher, peer, HeaderOf(c, i), cipher.seal(c.key, data, sequence).value, now);
    } else {
      var nonce := NonceOf(c, i);
      assert OpensSame(cipher, c.key, data[1..], nonce);
      assert data[..1] == [data[0]] && [data[0]] + data[1..] == data;
      UnreliableHandled(cipher, peer, data[0], nonce, cipher.seal(c.key, data[1..], nonce).value, now);
    }
  }

  /**
    A framed send reaches the application if and only if the peer holds the key it was sealed under.
    The header of a reliable one is heard either way, so what could not be opened is still acknowledged.
   */
  lemma SendArrivesExactly(cipher: Cipher, c: ConnState, i: nat, peer: ConnState, now: nat)
    requires Sealed(cipher) && i < |c.queue| && Plain(c, i)
    requires WireOf(cipher, c, i).Some?
    ensures var (after, delivery) := Handled(cipher, peer, WireOf(cipher, c, i).value, now);
            && delivery == (if peer.key == c.key then App(c.queue[i].data) else Dropped)
            && after == (if c.queue[i].reliable then peer.(rel := Incoming(peer.rel, HeaderOf(c, i), now)) else peer)
  {
    var data := c.queue[i].data;
    if c.queue[i].reliable {
      var sequence := SequenceOf(c, i);
      OpensExactly(cipher, c.key, data, sequence, peer.key, sequence);
      hide Sealed, Inverts, Handled, ReliableFrame, HandshakeShaped, Incoming;
      ReliableHandled(cipher, peer, HeaderOf(c, i), cipher.seal(c.key, data, sequence).value, now);
    } else {
      var nonce := NonceOf(c, i);
      OpensExactly(cipher, c.key, data[1..], nonce, peer.key, nonce);
      hide Sealed, Inverts, Handled, UnreliableFrame, Incoming;
      assert data[..1] == [data[0]] && [data[0]] + data[1..] == data;
      UnreliableHandled(cipher, peer, data[0], nonce, cipher.seal(c.key, data[1..], nonce).value, now);
    }
  }

  /**
    Delivered twice, a reliable packet reaches the application twice, although the window calls the
    second one a duplicate: the answer of the window is not used.
   */
  lemma DuplicatesReachTheApplication(cipher: Cipher, c: ConnState, i: nat, peer: ConnState, now: nat, later: nat)
    requires Inverts(cipher) && i < |c.queue| && Plain(c, i) && c.queue[i].reliable
    requires WireOf(cipher, c, i).Some? && peer.key == c.key
    ensures var wire := WireOf(cipher, c, i).value;
            var once := Handled(cipher, peer, wire, now);
            && once.1 == App(c.queue[i].data)
            && Handled(cipher, once.0, wire, later).1 == App(c.queue[i].data)
            && !IsNew(once.0.rel.window, SequenceOf(c, i))
  {
    var wire, sequence := WireOf(cipher, c, i).value, SequenceOf(c, i);
    SendArrivesUnchanged(cipher, c, i, peer, now);
    var once := Handled(cipher, peer, wire, now).0;
    SendArrivesUnchanged(cipher, c, i, once, later);
    assert OpensSame(cipher, c.key, c.queue[i].data, sequence);
    hide Handled, ReliableFrame, HandshakeShaped, IsNew, Received, SequenceOf, Remaining, Samples, SampledAll;
    ReliableHandled(cipher, peer, HeaderOf(c, i), cipher.seal(c.key, c.queue[i].data, sequence).value, now);
    RepeatIsDuplicate(peer.rel.window, sequence);
  }

  // ---------- a whole flush ----------

  /** A peer that takes in a list of wire packets, and what it makes of each. */
  function TakenIn(cipher: Cipher, peer: ConnState, wires: seq<Bytes>, now: nat): (ConnState, seq<Delivery>) {
    if wires == [] then (peer, [])
    else
      var (before, deliveries) := TakenIn(cipher, peer, wires[..|wires| - 1], now);
      var (after, delivery) := Handled(cipher, before, wires[|wires| - 1], now);
      (after, deliveries + [delivery])
  }

  /** The data of the first `n` sends that could be framed. */
  function FramedData(cipher: Cipher, c: ConnState, n: nat): seq<Delivery>
    requires n <= |c.queue|
  {
    if n == 0 then []
    else
      FramedData(cipher, c, n - 1) + if WireOf(cipher, c, n - 1).Some? then [App(c.queue[n - 1].data)] else []
  }

  /** A flush without loss delivers the framed sends, all of them, unchanged and in queue order. */
  lemma {:induction false} FlushArrivesInOrder(cipher: Cipher, c: ConnState, n: nat, peer: ConnState, now: nat)
    requires Inverts(cipher) && n <= |c.queue| && peer.key == c.key
    requires forall i: nat | i < n :: Plain(c, i)
    ensures TakenIn(cipher, peer, Wires(cipher, c, n), now).1 == FramedData(cipher, c, n)
    ensures TakenIn(cipher, peer, Wires(cipher, c, n), now).0.key == peer.key
  {
    hide Handled, WireOf, Plain, Inverts;
    if n > 0 {
      FlushArrivesInOrder(cipher, c, n - 1, peer, now);
      var wires, wire := Wires(cipher, c, n - 1), WireOf(cipher, c, n - 1);
      if wire.Some? {
        SendArrivesUnchanged(cipher, c, n - 1, TakenIn(cipher, peer, wires, now).0, now);
        TakenInOneMore(cipher, peer, wires, wire.value, now);
      } else {
        assert Wires(cipher, c, n) == wires;
      }
    }
  }

  lemma TakenInOneMore(cipher: Cipher, peer: ConnState, wires: seq<Bytes>, wire: Bytes, now: nat)
    ensures var (before, deliveries) := TakenIn(cipher, peer, wires, now);
            var (after, delivery) := Handled(cipher, before, wire, now);
            TakenIn(cipher, peer, wires + [wire], now) == (after, deliveries + [delivery])
  {
    hide Handled;
    assert (wires + [wire])[..|wires|] == wires;
  }

  // ---------- snapshots and inputs ----------

  function PositionBytes(p: FixedVec3): (b: Bytes)
    requires InI32(p)
    ensures |b| == 12
  {
    SignedToBytes(p.x) + SignedToBytes(p.y) + SignedToBytes(p.z)
  }

  predicate InI32(p: FixedVec3) {
    && -0x8000_0000 <= p.x < 0x8000_0000
    && -0x8000_0000 <= p.y < 0x8000_0000
    && -0x8000_0000 <= p.z < 0x8000_0000
  }

  function PositionsBytes(positions: seq<FixedVec3>): Bytes
    requires forall i :: 0 <= i < |positions| ==> InI32(positions[i])
  {
    if positions == [] then [] else PositionBytes(positions[0]) + PositionsBytes(positions[1..])
  }

  datatype SnapshotHeader = SnapshotHeader(tick: nat, stateHash: nat, lastInputTick: nat)

  predicate InU64(h: SnapshotHeader) {
    && h.tick < 0x1_0000_0000_0000_0000
    && h.stateHash < 0x1_0000_0000_0000_0000
    && h.lastInputTick < 0x1_0000_0000_0000_0000
  }

  function SnapshotBytes(h: SnapshotHeader): (b: Bytes)
    ensures |b| == 24
  {
    ToBytes(h.tick, 8) + ToBytes(h.stateHash, 8) + ToBytes(h.lastInputTick, 8)
  }

  /** The snapshot packet as the server builds it. */
  function SnapshotPacket(h: SnapshotHeader, positions: seq<FixedVec3>): Bytes
    requires forall i :: 0 <= i < |positions| ==> InI32(positions[i])
  {
    [SNAPSHOT] + SnapshotBytes(h) + PositionsBytes(positions)
  }

  datatype Parsed =
    | NoSnapshot
    | OutOfBounds   // the client's slicing stops the program
    | Taken(header: SnapshotHeader, position: FixedVec3)

  /** The client's reading of application data: it takes the first position only. */
  function ParseSnapshot(data: Bytes): Parsed {
    if data == [] || data[0] != SNAPSHOT then NoSnapshot
    else if |data| < 37 then OutOfBounds
    else Taken(SnapshotHeader(U64At(data, 1), U64At(data, 9), U64At(data, 17)),
               FixedVec3(SignedFromBytes(data[25..29]), SignedFromBytes(data[29..33]), SignedFromBytes(data[33..37])))
  }

  lemma SnapshotHeaderFields(h: SnapshotHeader, rest: Bytes)
    requires InU64(h)
    ensures var data := [SNAPSHOT] + SnapshotBytes(h) + rest;
            U64At(data, 1) == h.tick && U64At(data, 9) == h.stateHash && U64At(data, 17) == h.lastInputTick
  {
    hide ToBytes, FromBytes;
    var data := [SNAPSHOT] + SnapshotBytes(h) + rest;
    Ranges();
    assert data[1..1 + 8] == ToBytes(h.tick, 8);
    assert data[9..9 + 8] == ToBytes(h.stateHash, 8);
    assert data[17..17 + 8] == ToBytes(h.lastInputTick, 8);
    NumberRoundTrip(h.tick, 8);
    NumberRoundTrip(h.stateHash, 8);
    NumberRoundTrip(h.lastInputTick, 8);
  }

  lemma PositionFields(head: Bytes, p: FixedVec3, rest: Bytes)
    requires |head| == 25 && InI32(p)
    ensures var data := head + PositionBytes(p) + rest;
            && SignedFromBytes(data[25..29]) == p.x
            && SignedFromBytes(data[29..33]) == p.y
            && SignedFromBytes(data[33..37]) == p.z
  {
    hide SignedToBytes, SignedFromBytes;
    var data := head + PositionBytes(p) + rest;
    assert data[25..29] == SignedToBytes(p.x);
    assert data[29..33] == SignedToBytes(p.y);
    assert data[33..37] == SignedToBytes(p.z);
    SignedRoundTrip(p.x);
    SignedRoundTrip(p.y);
    SignedRoundTrip(p.z);
  }

  lemma SnapshotRoundTrip(h: SnapshotHeader, positions: seq<FixedVec3>)
    requires InU64(h) && positions != []
    requires forall i :: 0 <= i < |positions| ==> InI32(positions[i])
    ensures ParseSnapshot(SnapshotPacket(h, positions)) == Taken(h, positions[0])
    ensures SnapshotPacket(h, positions)[0] == 3
  {
    var head, first, rest := [SNAPSHOT] + SnapshotBytes(h), PositionBytes(positions[0]), PositionsBytes(positions[1..]);
    assert PositionsBytes(positions) == first + rest;
    SnapshotHeaderFields(h, first + rest);
    PositionFields(head, positions[0], rest);
    hide SnapshotBytes, PositionBytes, PositionsBytes, U64At, SignedFromBytes, InU64;
    assert SnapshotPacket(h, positions) == head + (first + rest) == head + first + rest;
  }

  /** Every position of the world is in the packet, twelve bytes each, in order. */
  lemma {:induction false} PositionsAreLaidOut(positions: seq<FixedVec3>, i: nat)
    requires (forall j :: 0 <= j < |positions| ==> InI32(positions[j])) && i < |positions|
    ensures |PositionsBytes(positions)| == 12 * |positions|
    ensures PositionsBytes(positions)[12 * i..12 * i + 12] == PositionBytes(positions[i])
  {
    hide PositionBytes;
    var rest := positions[1..];
    if i > 0 {
      PositionsAreLaidOut(rest, i - 1);
      assert PositionsBytes(positions)[12 * i..12 * i + 12] == PositionsBytes(rest)[12 * (i - 1)..12 * (i - 1) + 12];
    } else if rest != [] {
      PositionsAreLaidOut(rest, 0);
    }
  }

  /** From the server's world to the client's parser: queued, framed, sealed, opened and read back. */
  lemma SnapshotCrossesTheWire(cipher: Cipher, c: ConnState, i: nat, peer: ConnState, now: nat,
                               h: SnapshotHeader, positions: seq<FixedVec3>)
    requires Inverts(cipher) && InU64(h) && positions != []
    requires forall j :: 0 <= j < |positions| ==> InI32(positions[j])
    requires i < |c.queue| && c.queue[i] == PendingSend(SnapshotPacket(h, positions), false)
    requires NonceOf(c, i) < 0x1_0000_0000_0000_0000
    requires WireOf(cipher, c, i).Some? && peer.key == c.key
    ensures var received := Returned(Handled(cipher, peer, WireOf(cipher, c, i).value, now).1);
            received.Some? && ParseSnapshot(received.value) == Taken(h, positions[0])
  {
    SendArrivesUnchanged(cipher, c, i, peer, now);
    SnapshotRoundTrip(h, positions);
  }

  datatype Input = Input(tick: nat, mask: nat)

  function InputPacket(input: Input): Bytes {
    [INPUT] + ToBytes(input.tick, 8) + ToBytes(input.mask, 4)
  }

  /** An input packet is its type, the tick and the mask, low bytes first. */
  lemma InputLayout(input: Input)
    ensures var b := InputPacket(input);
            && |b| == 13 && b[0] == 4
            && (forall i: nat | i < 8 :: b[1 + i] == (input.tick / Range(i)) % 0x100)
            && (forall i: nat | i < 4 :: b[9 + i] == (input.mask / Range(i)) % 0x100)
  {
    hide ToBytes, Range;
    forall i: nat | i < 8
      ensures InputPacket(input)[1 + i] == (input.tick / Range(i)) % 0x100
    {
      LittleEndian(input.tick, 8, i);
    }
    forall i: nat | i < 4
      ensures InputPacket(input)[9 + i] == (input.mask / Range(i)) % 0x100
    {
      LittleEndian(input.mask, 4, i);
    }
  }

  /** The server's reading: undersized packets and other types are dropped. */
  function ParseInput(data: Bytes): Option<Input> {
    if data == [] || data[0] != INPUT || |data| < 13 then None
    else Some(Input(U64At(data, 1), U32At(data, 9)))
  }

  /** What follows an input packet is not looked at. */
  lemma InputIsRead(input: Input, rest: Bytes)
    requires input.tick < 0x1_0000_0000_0000_0000 && input.mask < 0x1_0000_0000
    ensures ParseInput(InputPacket(input) + rest) == Some(input)
  {
    Ranges();
    var data := InputPacket(input) + rest;
    assert data[1..1 + 8] == ToBytes(input.tick, 8);
    assert data[9..9 + 4] == ToBytes(input.mask, 4);
    NumberRoundTrip(input.tick, 8);
    NumberRoundTrip(input.mask, 4);
  }

  /** Exactly an input packet with anything behind it is read as that input. */
  lemma InputIsReadExactly(data: Bytes, input: Input)
    ensures ParseInput(data) == Some(input) <==>
            && input.tick < 0x1_0000_0000_0000_0000 && input.mask < 0x1_0000_0000
            && InputPacket(input) <= data
  {
    hide ToBytes, FromBytes;
    if InputPacket(input) <= data && input.tick < 0x1_0000_0000_0000_0000 && input.mask < 0x1_0000_0000 {
      InputIsRead(input, data[13..]);
      assert data == InputPacket(input) + data[13..];
    }
    if ParseInput(data) == Some(input) {
      BytesRoundTrip(data[1..1 + 8]);
      BytesRoundTrip(data[9..9 + 4]);
      assert data[..13] == [data[0]] + data[1..1 + 8] + data[9..9 + 4];
    }
  }

  lemma InputRoundTrip(input: Input)
    requires input.tick < 0x1_0000_0000_0000_0000 && input.mask < 0x1_0000_0000
    ensures ParseInput(InputPacket(input)) == Some(input)
  {
    InputIsRead(input, []);
    assert InputPacket(input) + [] == InputPacket(input);
  }

  /** From the client's prediction to the server's jitter buffer. */
  lemma InputCrossesTheWire(cipher: Cipher, c: ConnState, i: nat, peer: ConnState, now: nat, input: Input)
    requires Inverts(cipher) && input.tick < 0x1_0000_0000_0000_0000 && input.mask < 0x1_0000_0000
    requires i < |c.queue| && c.queue[i] == PendingSend(InputPacket(input), false)
    requires NonceOf(c, i) < 0x1_0000_0000_0000_0000
    requires WireOf(cipher, c, i).Some? && peer.key == c.key
    ensures var received := Returned(Handled(cipher, peer, WireOf(cipher, c, i).value, now).1);
            received.Some? && ParseInput(received.value) == Some(input)
  {
    SendArrivesUnchanged(cipher, c, i, peer, now);
    InputRoundTrip(input);
  }
}
